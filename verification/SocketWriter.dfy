/**
 The writing side of the socket wrapper: a queue, one `async_write` at a time and the field
 whose memory the length of the frame being written is sent from.
 */
module SocketWriter {
  import opened Wrappers
  import opened Bytes
  import opened Serialization

  /** A frame as a list of buffers whose sizes add up to a `size_t`. */
  type Pieces = p: seq<Bytes> | |Flatten(p)| < SIZE_LIMIT witness []

  /** `callback` numbers the calls of `writeFrame`. */
  datatype PendingWrite = PendingWrite(frame: Pieces, callback: nat)

  datatype Called = Called(callback: nat, ok: bool)

  /** An `async_write` under way; `sent` of its bytes have left. */
  datatype Flight = Flight(write: PendingWrite, sent: nat)

  /**
   `issued` lists the calls of `writeFrame`, `posted` those whose handler has not run,
   `started` the frames handed to `async_write`, `wire` the bytes that left and `called` the
   callbacks that ran, with what they were told.
   */
  datatype Writer = Writer(
    issued: seq<PendingWrite>,
    posted: seq<PendingWrite>,
    pendingWrites: seq<PendingWrite>,
    flight: Option<Flight>,
    writeInProgress: bool,
    outcomingFrameSize: SizeT,
    invalidated: bool,
    alive: bool,
    started: seq<PendingWrite>,
    wire: Bytes,
    called: seq<Called>)

  const START := Writer([], [], [], None, false, 0, false, true, [], [], [])

  datatype Step =
    | WritesFrame(frame: Pieces)
    | RunsPosted
    | Sends(count: nat)
    | Completes(ok: bool)
    | Invalidates
    | IsDestroyed

  /** The buffers given to `async_write`; the first is the memory of the size field. */
  function Outgoing(size: SizeT, w: PendingWrite): Bytes {
    EncodeSize(size) + Flatten(w.frame)
  }

  ghost predicate Enabled(s: Writer, e: Step) {
    match e
    case WritesFrame(_) => s.alive
    case RunsPosted => s.posted != []
    case Sends(count) =>
      && s.flight.Some? && !s.invalidated
      && s.flight.value.sent + count <= |Outgoing(s.outcomingFrameSize, s.flight.value.write)|
    case Completes(ok) =>
      && s.flight.Some?
      && (ok ==> s.flight.value.sent == |Outgoing(s.outcomingFrameSize, s.flight.value.write)|)
    case Invalidates => s.alive
    case IsDestroyed => s.alive
  }

  function Aborted(ws: seq<PendingWrite>): (r: seq<Called>)
    ensures |r| == |ws|
  {
    seq(|ws|, i requires 0 <= i < |ws| => Called(ws[i].callback, false))
  }

  function Check(s: Writer): Writer {
    if s.invalidated then s.(called := s.called + Aborted(s.pendingWrites), pendingWrites := [])
    else if s.writeInProgress || s.pendingWrites == [] then s
    else
      var w := s.pendingWrites[0];
      s.(writeInProgress := true,
         pendingWrites := s.pendingWrites[1..],
         outcomingFrameSize := |Flatten(w.frame)|,
         started := s.started + [w],
         flight := Some(Flight(w, 0)))
  }

  function Invalidated(s: Writer): Writer {
    Check(s.(invalidated := true))
  }

  function Complete(s: Writer, ok: bool): Writer
    requires s.flight.Some?
  {
    var s := s.(called := s.called + [Called(s.flight.value.write.callback, ok)], flight := None);
    if !s.alive then s
    else
      var s := if ok then s else Invalidated(s);
      Check(s.(writeInProgress := false))
  }

  function Apply(s: Writer, e: Step): Writer
    requires Enabled(s, e)
  {
    match e
    case WritesFrame(frame) =>
      var w := PendingWrite(frame, |s.issued|);
      s.(issued := s.issued + [w], posted := s.posted + [w])
    case RunsPosted =>
      var (w, s) := (s.posted[0], s.(posted := s.posted[1..]));
      if s.alive then Check(s.(pendingWrites := s.pendingWrites + [w]))
      else s.(called := s.called + [Called(w.callback, false)])
    case Sends(count) =>
      var f := s.flight.value;
      s.(wire := s.wire + Outgoing(s.outcomingFrameSize, f.write)[f.sent..f.sent + count],
         flight := Some(f.(sent := f.sent + count)))
    case Completes(ok) => Complete(s, ok)
    case Invalidates => Invalidated(s)
    case IsDestroyed => Invalidated(s).(alive := false)
  }

  ghost predicate Run(s: Writer, es: seq<Step>, u: Writer)
    decreases |es|
  {
    if es == [] then s == u else Enabled(s, es[0]) && Run(Apply(s, es[0]), es[1..], u)
  }

  // ---- what every step keeps ----

  /** The contents of the frames, as the reader should see them. */
  function Frames(ws: seq<PendingWrite>): (r: seq<Text>)
    ensures |r| == |ws|
  {
    seq(|ws|, i requires 0 <= i < |ws| => Flatten(ws[i].frame))
  }

  lemma {:induction false} StreamSnoc(ws: seq<PendingWrite>, w: PendingWrite)
    ensures Sized(Frames(ws + [w])) == Sized(Frames(ws)) + Outgoing(|Flatten(w.frame)|, w)
  {
    hide EncodeSize, Sized;
    assert Frames(ws + [w]) == Frames(ws) + [Flatten(w.frame)];
    SizedAppend(Frames(ws), [Flatten(w.frame)]);
    SizedOne(Flatten(w.frame));
  }

  /** First in, first out: only a failure breaks the line off. */
  ghost predicate Ordered(s: Writer) {
    && (forall i {:trigger s.issued[i]} :: 0 <= i < |s.issued| ==> s.issued[i].callback == i)
    && s.started <= s.issued
    && (!s.invalidated ==> s.issued == s.started + s.pendingWrites + s.posted)
    && (!s.alive ==> s.invalidated)
  }

  /**
   At most one write at a time, none waiting after invalidation, and before it none waiting
   while nothing is being written.
   */
  ghost predicate Settled(s: Writer) {
    && (s.invalidated ==> s.pendingWrites == [])
    && (s.alive && s.flight.None? ==> s.pendingWrites == [])
    && (s.alive ==> (s.writeInProgress <==> s.flight.Some?))
  }

  /** The size field does not change while its memory is being sent from. */
  ghost predicate OnWire(s: Writer) {
    match s.flight
    case Some(f) =>
      && s.started != [] && s.started[|s.started| - 1] == f.write
      && s.outcomingFrameSize == |Flatten(f.write.frame)|
      && f.sent <= |Outgoing(s.outcomingFrameSize, f.write)|
      && s.wire == Sized(Frames(s.started[..|s.started| - 1])) + Outgoing(s.outcomingFrameSize, f.write)[..f.sent]
    case None =>
      && s.wire <= Sized(Frames(s.started))
      && (!s.invalidated ==> s.wire == Sized(Frames(s.started)))
  }

  function Ids(ws: seq<PendingWrite>): (r: seq<nat>)
    ensures |r| == |ws|
  {
    seq(|ws|, i requires 0 <= i < |ws| => ws[i].callback)
  }

  function CalledIds(cs: seq<Called>): (r: seq<nat>)
    ensures |r| == |cs|
  {
    seq(|cs|, i requires 0 <= i < |cs| => cs[i].callback)
  }

  function InFlight(s: Writer): seq<nat> {
    if s.flight.Some? then [s.flight.value.write.callback] else []
  }

  /** Every call of `writeFrame` is waiting in exactly one place or has had its callback run. */
  ghost predicate Accounted(s: Writer) {
    multiset(CalledIds(s.called)) + multiset(InFlight(s)) + multiset(Ids(s.pendingWrites)) + multiset(Ids(s.posted))
    == multiset(Ids(s.issued))
  }

  /** A callback is told of success only when its frame, and all before it, have left. */
  ghost predicate Truthful(s: Writer) {
    forall c: nat {:trigger Called(c, true) in s.called} :: Called(c, true) in s.called ==>
      c < |s.started| && Sized(Frames(s.started[..c + 1])) <= s.wire
  }

  ghost predicate Sound(s: Writer) {
    Ordered(s) && OnWire(s) && Accounted(s) && Truthful(s)
  }

  ghost predicate Good(s: Writer) {
    Sound(s) && Settled(s)
  }

  lemma {:induction false} IdsAppend(a: seq<PendingWrite>, b: seq<PendingWrite>)
    ensures multiset(Ids(a + b)) == multiset(Ids(a)) + multiset(Ids(b))
  {
    assert Ids(a + b) == Ids(a) + Ids(b);
  }

  lemma {:induction false} CalledAppend(a: seq<Called>, b: seq<Called>)
    ensures multiset(CalledIds(a + b)) == multiset(CalledIds(a)) + multiset(CalledIds(b))
  {
    assert CalledIds(a + b) == CalledIds(a) + CalledIds(b);
  }

  lemma {:induction false} CheckOrdered(s: Writer)
    requires Ordered(s)
    ensures Ordered(Check(s))
  {
    if !s.invalidated && !s.writeInProgress && s.pendingWrites != [] {
      var ws := s.pendingWrites;
      assert ws == [ws[0]] + ws[1..];
      assert s.started + [ws[0]] + ws[1..] + s.posted == s.issued;
    }
  }

  lemma {:induction false} CheckOnWire(s: Writer)
    requires OnWire(s) && (!s.invalidated ==> (s.writeInProgress <==> s.flight.Some?))
    ensures OnWire(Check(s))
  {
    hide EncodeSize, Sized;
    if !s.invalidated && !s.writeInProgress && s.pendingWrites != [] {
      var u := Check(s);
      assert u.started[..|u.started| - 1] == s.started;
      assert u.wire + [] == u.wire;
    }
  }

  /** The first waiting write is taken off the queue. */
  lemma {:induction false} IdsSplit(ws: seq<PendingWrite>)
    requires ws != []
    ensures multiset(Ids(ws)) == multiset{ws[0].callback} + multiset(Ids(ws[1..]))
  {
    IdsAppend([ws[0]], ws[1..]);
    assert ws == [ws[0]] + ws[1..] && Ids([ws[0]]) == [ws[0].callback];
  }

  lemma AbortedIds(ws: seq<PendingWrite>)
    ensures CalledIds(Aborted(ws)) == Ids(ws) && Ids([]) == []
  {
  }

  lemma {:induction false} CheckAccounted(s: Writer)
    requires Accounted(s) && (!s.invalidated ==> (s.writeInProgress <==> s.flight.Some?))
    ensures Accounted(Check(s))
  {
    hide Ids, CalledIds, Aborted;
    if s.invalidated {
      CalledAppend(s.called, Aborted(s.pendingWrites));
      AbortedIds(s.pendingWrites);
    } else if !s.writeInProgress && s.pendingWrites != [] {
      IdsSplit(s.pendingWrites);
      assert multiset(InFlight(Check(s))) == multiset{s.pendingWrites[0].callback};
    }
  }

  lemma {:induction false} CheckTruthful(s: Writer)
    requires Truthful(s)
    ensures Truthful(Check(s))
  {
    hide EncodeSize, Sized;
    var u := Check(s);
    forall c: nat | Called(c, true) in u.called ensures c < |u.started| && Sized(Frames(u.started[..c + 1])) <= u.wire {
      assert Called(c, true) in s.called;
      assert u.started[..c + 1] == s.started[..c + 1];
    }
  }

  lemma {:induction false} CheckKeeps(s: Writer)
    requires Sound(s) && (!s.invalidated ==> (s.writeInProgress <==> s.flight.Some?))
    ensures Sound(Check(s)) && (Check(s).invalidated ==> Check(s).pendingWrites == [])
    ensures !s.invalidated ==> (Check(s).writeInProgress <==> Check(s).flight.Some?)
    ensures Check(s).flight.None? ==> Check(s).pendingWrites == []
  {
    CheckOrdered(s);
    CheckOnWire(s);
    CheckAccounted(s);
    CheckTruthful(s);
  }

  /** Nothing the wire depends on has changed. */
  lemma WireStays(s: Writer, u: Writer)
    requires OnWire(s)
    requires u.flight == s.flight && u.started == s.started && u.wire == s.wire
    requires u.outcomingFrameSize == s.outcomingFrameSize && (s.invalidated ==> u.invalidated)
    ensures OnWire(u)
  {
    hide EncodeSize, Sized;
  }

  /** More was issued or sent, and nobody new was told of success. */
  lemma {:induction false} TruthStays(s: Writer, u: Writer)
    requires Truthful(s) && s.started <= u.started && s.wire <= u.wire
    requires forall c: nat {:trigger Called(c, true) in u.called} ::
      Called(c, true) in u.called ==> Called(c, true) in s.called
    ensures Truthful(u)
  {
    hide EncodeSize, Sized;
    forall c: nat | Called(c, true) in u.called
      ensures c < |u.started| && Sized(Frames(u.started[..c + 1])) <= u.wire
    {
      assert u.started[..c + 1] == s.started[..c + 1];
    }
  }

  /** Nobody moved. */
  lemma AccountStays(s: Writer, u: Writer)
    requires Accounted(s)
    requires u.called == s.called && u.flight == s.flight && u.pendingWrites == s.pendingWrites
    requires u.posted == s.posted && u.issued == s.issued
    ensures Accounted(u)
  {
    hide Ids, CalledIds;
  }

  lemma {:induction false} PostAccounted(s: Writer, w: PendingWrite)
    requires Accounted(s)
    ensures Accounted(s.(issued := s.issued + [w], posted := s.posted + [w]))
  {
    IdsAppend(s.issued, [w]);
    IdsAppend(s.posted, [w]);
    hide Ids, CalledIds;
  }

  lemma {:induction false} PostKeeps(s: Writer, frame: Pieces)
    requires Sound(s) && s.alive
    ensures Sound(Apply(s, WritesFrame(frame)))
  {
    var u, w := Apply(s, WritesFrame(frame)), PendingWrite(frame, |s.issued|);
    hide OnWire, Truthful, Accounted;
    WireStays(s, u);
    TruthStays(s, u);
    PostAccounted(s, w);
    assert s.started + s.pendingWrites + s.posted + [w] == s.started + s.pendingWrites + (s.posted + [w]);
  }

  lemma {:induction false} TakeAccounted(s: Writer)
    requires Accounted(s) && s.posted != []
    ensures Accounted(s.(posted := s.posted[1..], pendingWrites := s.pendingWrites + [s.posted[0]]))
  {
    var w := s.posted[0];
    IdsSplit(s.posted);
    IdsAppend(s.pendingWrites, [w]);
    assert Ids([w]) == [w.callback];
    hide Ids, CalledIds;
  }

  lemma {:induction false} TakeOrdered(s: Writer)
    requires Ordered(s) && s.posted != []
    ensures Ordered(s.(posted := s.posted[1..], pendingWrites := s.pendingWrites + [s.posted[0]]))
  {
    var w := s.posted[0];
    assert s.posted == [w] + s.posted[1..];
    assert s.started + s.pendingWrites + ([w] + s.posted[1..]) == s.started + (s.pendingWrites + [w]) + s.posted[1..];
  }

  lemma {:induction false} TakeKeeps(s: Writer)
    requires Sound(s) && s.posted != []
    ensures Sound(s.(posted := s.posted[1..], pendingWrites := s.pendingWrites + [s.posted[0]]))
  {
    var w := s.posted[0];
    var u := s.(posted := s.posted[1..], pendingWrites := s.pendingWrites + [w]);
    TakeOrdered(s);
    TakeAccounted(s);
    hide OnWire, Truthful, Accounted, Ordered;
    WireStays(s, u);
    TruthStays(s, u);
  }

  /** The first posted handler finds the wrapper destroyed. */
  function Orphaned(s: Writer): Writer
    requires s.posted != []
  {
    s.(posted := s.posted[1..], called := s.called + [Called(s.posted[0].callback, false)])
  }

  lemma {:induction false} OrphanAccounted(s: Writer)
    requires Accounted(s) && s.posted != []
    ensures Accounted(Orphaned(s))
  {
    var w := s.posted[0];
    IdsSplit(s.posted);
    CalledAppend(s.called, [Called(w.callback, false)]);
    assert CalledIds([Called(w.callback, false)]) == [w.callback];
    hide Ids, CalledIds;
  }

  lemma {:induction false} OrphanKeeps(s: Writer)
    requires Sound(s) && s.posted != [] && !s.alive
    ensures Sound(Orphaned(s))
  {
    hide OnWire, Truthful, Accounted;
    OrphanAccounted(s);
    WireStays(s, Orphaned(s));
    TruthStays(s, Orphaned(s));
  }

  lemma {:induction false} SendKeeps(s: Writer, count: nat)
    requires Sound(s) && Enabled(s, Sends(count))
    ensures Sound(Apply(s, Sends(count)))
  {
    hide EncodeSize, Sized, Outgoing;
    var u, f := Apply(s, Sends(count)), s.flight.value;
    var bs := Outgoing(s.outcomingFrameSize, f.write);
    assert bs[..f.sent] + bs[f.sent..f.sent + count] == bs[..f.sent + count];
    var before := Sized(Frames(s.started[..|s.started| - 1]));
    assert before + bs[..f.sent] + bs[f.sent..f.sent + count] == before + bs[..f.sent + count];
    assert s.wire <= u.wire;
  }

  /** The callback of the write in flight has run; a failure counts as invalidation. */
  function Landed(s: Writer, ok: bool): Writer
    requires s.flight.Some?
  {
    s.(called := s.called + [Called(s.flight.value.write.callback, ok)], flight := None,
       invalidated := s.invalidated || !ok)
  }

  /** What is on the wire when a write ends. */
  lemma {:induction false} LandedWire(s: Writer, ok: bool)
    requires OnWire(s) && Enabled(s, Completes(ok))
    ensures s.wire <= Sized(Frames(s.started)) && (ok ==> s.wire == Sized(Frames(s.started)))
  {
    hide EncodeSize, Sized, Frames;
    var f, front := s.flight.value, s.started[..|s.started| - 1];
    var a, b := Sized(Frames(front)), Outgoing(s.outcomingFrameSize, f.write);
    assert s.started == front + [f.write];
    assert s.wire == a + b[..f.sent];
    assert ok ==> f.sent == |b|;
    StreamSnoc(front, f.write);
    hide OnWire, Outgoing;
    TakeIsPrefix(a, b, f.sent);
  }

  lemma TakeIsPrefix(a: Bytes, b: Bytes, k: nat)
    requires k <= |b|
    ensures a + b[..k] <= a + b && (k == |b| ==> a + b[..k] == a + b)
  {
    assert k == |b| ==> b[..k] == b;
  }

  lemma {:induction false} LandedTruth(s: Writer, ok: bool)
    requires Sound(s) && Enabled(s, Completes(ok))
    ensures Truthful(Landed(s, ok))
  {
    var u, f, n := Landed(s, ok), s.flight.value, |s.started|;
    LandedWire(s, ok);
    hide EncodeSize, Sized;
    assert s.started == s.started[..n] && s.issued[n - 1] == f.write;
    forall c: nat | Called(c, true) in u.called ensures c < |u.started| && Sized(Frames(u.started[..c + 1])) <= u.wire {
      assert Called(c, true) in s.called || (ok && c == n - 1);
    }
  }

  lemma {:induction false} LandAccounted(s: Writer, ok: bool)
    requires Accounted(s) && s.flight.Some?
    ensures Accounted(Landed(s, ok))
  {
    var f := s.flight.value;
    CalledAppend(s.called, [Called(f.write.callback, ok)]);
    assert CalledIds([Called(f.write.callback, ok)]) == [f.write.callback];
    hide CalledIds, Ids;
  }

  lemma {:induction false} LandKeeps(s: Writer, ok: bool)
    requires Sound(s) && Enabled(s, Completes(ok))
    ensures Sound(Landed(s, ok))
  {
    LandedTruth(s, ok);
    LandedWire(s, ok);
    LandAccounted(s, ok);
    hide Sized, Truthful, Accounted, Frames;
  }

  lemma {:induction false} CompleteKeeps(s: Writer, ok: bool)
    requires Good(s) && Enabled(s, Completes(ok))
    ensures Good(Complete(s, ok))
  {
    LandKeeps(s, ok);
    hide OnWire, Accounted, Truthful;
    var u := Landed(s, ok);
    if s.alive {
      if ok {
        FieldKeeps(u, false);
        CheckKeeps(u.(writeInProgress := false));
      } else {
        CheckKeeps(u);
        FieldKeeps(Check(u), false);
        CheckKeeps(Check(u).(writeInProgress := false));
      }
    }
  }

  lemma FieldKeeps(s: Writer, b: bool)
    requires Sound(s)
    ensures Sound(s.(writeInProgress := b))
  {
    hide EncodeSize, Sized;
  }

  lemma {:induction false} InvalidateKeeps(s: Writer)
    requires Good(s)
    ensures Good(Invalidated(s)) && Invalidated(s).invalidated
    ensures Good(Invalidated(s).(alive := false))
  {
    var u := s.(invalidated := true);
    InvalidatedWire(s);
    OrderStays(s);
    hide OnWire, Truthful, Accounted, Ordered;
    TruthStays(s, u);
    AccountStays(s, u);
    CheckKeeps(u);
    DeathKeeps(Check(u));
  }

  lemma OrderStays(s: Writer)
    requires Ordered(s)
    ensures Ordered(s.(invalidated := true))
    ensures s.invalidated ==> Ordered(s.(alive := false))
  {
  }

  lemma {:induction false} DeathKeeps(s: Writer)
    requires Sound(s) && s.invalidated
    ensures Sound(s.(alive := false))
  {
    var u := s.(alive := false);
    OrderStays(s);
    hide OnWire, Truthful, Accounted, Ordered;
    WireStays(s, u);
    TruthStays(s, u);
    AccountStays(s, u);
  }

  lemma InvalidatedWire(s: Writer)
    requires OnWire(s)
    ensures OnWire(s.(invalidated := true))
  {
    hide EncodeSize, Sized;
  }

  lemma {:induction false} StepKeeps(s: Writer, e: Step)
    requires Good(s) && Enabled(s, e)
    ensures Good(Apply(s, e))
  {
    hide OnWire, Accounted, Truthful, Ordered;
    match e {
      case WritesFrame(frame) =>
        DeadIsInvalid(s);
        PostKeeps(s, frame);
      case RunsPosted =>
        if s.alive {
          TakeKeeps(s);
          CheckKeeps(s.(posted := s.posted[1..], pendingWrites := s.pendingWrites + [s.posted[0]]));
        } else {
          OrphanKeeps(s);
        }
      case Sends(count) => SendKeeps(s, count);
      case Completes(ok) => CompleteKeeps(s, ok);
      case Invalidates => InvalidateKeeps(s);
      case IsDestroyed => InvalidateKeeps(s);
    }
  }

  lemma DeadIsInvalid(s: Writer)
    requires Ordered(s)
    ensures !s.invalidated ==> s.alive
  {
  }

  lemma {:induction false} RunKeeps(s: Writer, es: seq<Step>, u: Writer)
    requires Good(s) && Run(s, es, u)
    ensures Good(u)
    decreases |es|
  {
    if es != [] {
      hide Good, Apply;
      StepKeeps(s, es[0]);
      RunKeeps(Apply(s, es[0]), es[1..], u);
    }
  }

  lemma StartIsGood()
    ensures Good(START)
  {
  }

  lemma {:induction false} EachIdOnce(ids: seq<nat>, c: nat)
    requires forall i :: 0 <= i < |ids| ==> ids[i] == i
    ensures multiset(ids)[c] == if c < |ids| then 1 else 0
    decreases |ids|
  {
    if ids != [] {
      var front := ids[..|ids| - 1];
      EachIdOnce(front, c);
      assert ids == front + [|ids| - 1];
    }
  }

  /**
   In every reachable state: frames are started in the order they were posted; a callback
   runs at most once; no frame waits in the queue unless one is being written, nor after
   invalidation; and when no write is in flight and no handler waits, every callback ever
   given has run exactly once.
   */
  lemma {:induction false} WriteQueue(es: seq<Step>, s: Writer)
    requires Run(START, es, s)
    ensures s.started <= s.issued
    ensures forall c: nat :: multiset(CalledIds(s.called))[c] <= if c < |s.issued| then 1 else 0
    ensures s.invalidated || s.flight.None? ==> s.pendingWrites == []
    ensures s.flight.None? && s.posted == [] ==>
      forall c: nat :: multiset(CalledIds(s.called))[c] == if c < |s.issued| then 1 else 0
  {
    StartIsGood();
    RunKeeps(START, es, s);
    hide OnWire, Truthful, Run, Accounted;
    forall c: nat
      ensures multiset(CalledIds(s.called))[c] <= if c < |s.issued| then 1 else 0
      ensures s.flight.None? && s.posted == [] ==>
        multiset(CalledIds(s.called))[c] == if c < |s.issued| then 1 else 0
    {
      CallbackCount(s, c);
    }
  }

  lemma {:induction false} CallbackCount(s: Writer, c: nat)
    requires Ordered(s) && Accounted(s)
    ensures multiset(CalledIds(s.called))[c] <= if c < |s.issued| then 1 else 0
    ensures s.pendingWrites == [] && s.flight.None? && s.posted == [] ==>
      multiset(CalledIds(s.called))[c] == if c < |s.issued| then 1 else 0
  {
    EachIdOnce(Ids(s.issued), c);
    assert Ids([]) == [];
    hide Ids, CalledIds;
  }

  /** Only started frames are on the wire, and a frame reported as written whole. */
  lemma {:induction false} SuccessMeansSent(es: seq<Step>, s: Writer)
    requires Run(START, es, s)
    ensures s.wire <= Sized(Frames(s.started))
    ensures forall c: nat {:trigger Called(c, true) in s.called} :: Called(c, true) in s.called ==>
      c < |s.started| && Sized(Frames(s.started[..c + 1])) <= s.wire
  {
    StartIsGood();
    RunKeeps(START, es, s);
    if s.flight.Some? {
      hide Run, EncodeSize, Sized;
      LandedWire(s, false);
    }
  }

  // ---- who is told what ----

  /**
   A write's completion tells its own callback how it went, before any other.  Success is told
   in no other way, and failure otherwise only by a wrapper that is invalidated.
   */
  lemma {:induction false} StepTells(s: Writer, e: Step)
    requires Good(s) && Enabled(s, e)
    ensures s.called <= Apply(s, e).called
    ensures e.Completes? ==>
      s.called + [Called(s.flight.value.write.callback, e.ok)] <= Apply(s, e).called
    ensures forall c: nat {:trigger Called(c, true) in Apply(s, e).called} ::
      Called(c, true) in Apply(s, e).called <==>
        Called(c, true) in s.called || (e == Completes(true) && c == s.flight.value.write.callback)
    ensures forall c: nat {:trigger Called(c, false) in Apply(s, e).called} ::
      Called(c, false) in Apply(s, e).called ==> Called(c, false) in s.called || Apply(s, e).invalidated
  {
    hide OnWire, Accounted, Truthful, Outgoing;
  }

  /** Nobody is told of a failure before the wrapper is invalidated. */
  lemma {:induction false} RunTellsSuccess(s: Writer, es: seq<Step>, u: Writer)
    requires Good(s) && Run(s, es, u)
    requires !s.invalidated ==> forall c: nat :: Called(c, false) !in s.called
    ensures !u.invalidated ==> forall c: nat :: Called(c, false) !in u.called
    decreases |es|
  {
    if es != [] {
      hide Good, Apply;
      StepKeeps(s, es[0]);
      StepTells(s, es[0]);
      StaysInvalidated(s, es[0]);
      RunTellsSuccess(Apply(s, es[0]), es[1..], u);
    }
  }

  lemma StaysInvalidated(s: Writer, e: Step)
    requires Enabled(s, e)
    ensures s.invalidated ==> Apply(s, e).invalidated
  {
    hide Outgoing;
  }

  /**
   Whenever a working wrapper has nothing left to do, all that was ever issued is on the
   wire, whole and in order, and every callback has been told of success, once.
   */
  lemma {:induction false} IdleMeansAllSent(es: seq<Step>, s: Writer)
    requires Run(START, es, s)
    requires !s.invalidated && s.flight.None? && s.posted == []
    ensures s.started == s.issued && s.wire == Sized(Frames(s.issued))
    ensures forall c: nat :: c < |s.issued| <==> Called(c, true) in s.called
    ensures |s.called| == |s.issued|
  {
    StartIsGood();
    RunKeeps(START, es, s);
    RunTellsSuccess(START, es, s);
    WriteQueue(es, s);
    SuccessMeansSent(es, s);
    hide Run, Truthful;
    IdleAccounts(s);
    assert s.started + [] + [] == s.issued;
    forall c: nat | c < |s.issued| ensures Called(c, true) in s.called {
      assert multiset(CalledIds(s.called))[c] == 1;
      assert c in CalledIds(s.called);
      var k :| 0 <= k < |s.called| && CalledIds(s.called)[k] == c;
      assert s.called[k] in s.called;
    }
  }

  lemma {:induction false} IdleAccounts(s: Writer)
    requires Accounted(s) && s.flight.None? && s.posted == [] && s.pendingWrites == []
    ensures |s.called| == |s.issued|
  {
    assert Ids([]) == [];
    assert multiset(CalledIds(s.called)) == multiset(Ids(s.issued));
    assert |CalledIds(s.called)| == |multiset(CalledIds(s.called))| == |multiset(Ids(s.issued))| == |Ids(s.issued)|;
  }

  // ---- the code ----

  /**
   The wrapper's writing half.  The queue, the flags and the size field are its own; `alive`
   is what a handler's weak pointer tells it; the io_context's queue of handlers and the far
   side of the socket are history.
   */
  class SocketWrapper {
    var pendingWrites: seq<PendingWrite>
    var writeInProgress: bool
    var outcomingFrameSize: SizeT
    var invalidated: bool
    var flight: Option<Flight>
    var called: seq<Called>
    ghost var issued: seq<PendingWrite>
    ghost var posted: seq<PendingWrite>
    var alive: bool
    ghost var started: seq<PendingWrite>
    ghost var wire: Bytes

    ghost function Abs(): Writer
      reads this
    {
      Writer(issued, posted, pendingWrites, flight, writeInProgress, outcomingFrameSize, invalidated,
             alive, started, wire, called)
    }

    constructor ()
      ensures Abs() == START
    {
      pendingWrites, writeInProgress, outcomingFrameSize, invalidated := [], false, 0, false;
      flight, called := None, [];
      issued, posted, alive, started, wire := [], [], true, [], [];
    }

    /** Runs every queued callback with an error, first to last. */
    method AbortPendingWrites()
      modifies this`pendingWrites, this`called
      ensures pendingWrites == [] && called == old(called) + Aborted(old(pendingWrites))
      ensures |called| == |old(called)| + |old(pendingWrites)|
      ensures forall k :: 0 <= k < |old(pendingWrites)| ==>
        called[|old(called)| + k] == Called(old(pendingWrites)[k].callback, false)
    {
      ghost var i := 0;
      while pendingWrites != []
        invariant i <= |old(pendingWrites)| && pendingWrites == old(pendingWrites)[i..]
        invariant called == old(called) + Aborted(old(pendingWrites))[..i]
        decreases |pendingWrites|
      {
        called := called + [Called(pendingWrites[0].callback, false)];
        pendingWrites := pendingWrites[1..];
        i := i + 1;
      }
    }

    /** Adds up the pieces in the field that will be sent. */
    method MeasureFrame(frame: Pieces)
      modifies this`outcomingFrameSize
      ensures outcomingFrameSize == |Flatten(frame)|
    {
      outcomingFrameSize := 0;
      assert frame[..0] == [];
      for i := 0 to |frame|
        invariant outcomingFrameSize == |Flatten(frame[..i])|
      {
        FlattenAppend(frame[..i], [frame[i]]);
        FlattenOne(frame[i]);
        FlattenAppend(frame[..i + 1], frame[i + 1..]);
        assert frame[..i + 1] == frame[..i] + [frame[i]] && frame == frame[..i + 1] + frame[i + 1..];
        outcomingFrameSize := outcomingFrameSize + |frame[i]|;
      }
      assert frame[..|frame|] == frame;
    }

    method CheckPendingWrites()
      modifies this
      ensures Abs() == Check(old(Abs()))
      ensures invalidated ==> pendingWrites == [] && called == old(called) + Aborted(old(pendingWrites))
      ensures !invalidated && (old(writeInProgress) || old(pendingWrites) == []) ==> Abs() == old(Abs())
      ensures !invalidated && !old(writeInProgress) && old(pendingWrites) != [] ==>
        && flight == Some(Flight(old(pendingWrites)[0], 0)) && writeInProgress
        && pendingWrites == old(pendingWrites)[1..]
        && outcomingFrameSize == |Flatten(old(pendingWrites)[0].frame)|
    {
      if invalidated {
        AbortPendingWrites();
        return;
      }
      if writeInProgress {
        return;
      }
      if pendingWrites == [] {
        return;
      }
      writeInProgress := true;
      var w := pendingWrites[0];
      pendingWrites := pendingWrites[1..];
      MeasureFrame(w.frame);
      flight := Some(Flight(w, 0));
      started := started + [w];
    }

    /** The `invalidated` signal goes out the first time only. */
    method Invalidate() returns (firstTime: bool)
      modifies this
      ensures Abs() == Invalidated(old(Abs()))
      ensures invalidated && pendingWrites == [] && called == old(called) + Aborted(old(pendingWrites))
      ensures firstTime <==> !old(invalidated)
    {
      firstTime := !invalidated;
      if firstTime {
        invalidated := true;
      }
      CheckPendingWrites();
    }

    ghost method WriteFrame(frame: Pieces)
      requires alive
      modifies this`issued, this`posted
      ensures Abs() == Apply(old(Abs()), WritesFrame(frame))
    {
      var w := PendingWrite(frame, |issued|);
      issued, posted := issued + [w], posted + [w];
    }

    /** The handler `writeFrame` posted; it may find the wrapper destroyed. */
    method RunPosted(w: PendingWrite)
      requires posted != [] && posted[0] == w
      modifies this
      ensures Abs() == Apply(old(Abs()), RunsPosted)
      ensures !alive ==> called == old(called) + [Called(w.callback, false)] && pendingWrites == old(pendingWrites)
      ensures alive && !invalidated && (old(writeInProgress) || old(pendingWrites) != []) ==> called == old(called)
      ensures alive && !invalidated && old(writeInProgress) ==> pendingWrites == old(pendingWrites) + [w]
      ensures alive && !invalidated && !old(writeInProgress) ==>
        flight == Some(Flight((old(pendingWrites) + [w])[0], 0)) && pendingWrites == (old(pendingWrites) + [w])[1..]
    {
      posted := posted[1..];
      if !alive {
        called := called + [Called(w.callback, false)];
        return;
      }
      pendingWrites := pendingWrites + [w];
      CheckPendingWrites();
    }

    /** The handler of `async_write`. */
    method OnWritten(ok: bool)
      requires Enabled(Abs(), Completes(ok))
      modifies this
      ensures Abs() == Apply(old(Abs()), Completes(ok))
      ensures old(called) + [Called(old(flight).value.write.callback, ok)] <= called
      ensures old(alive) && !ok ==> invalidated
      ensures old(alive) && !invalidated && old(pendingWrites) == [] ==> flight == None && !writeInProgress
      ensures old(alive) && !invalidated && old(pendingWrites) != [] ==>
        flight == Some(Flight(old(pendingWrites)[0], 0)) && pendingWrites == old(pendingWrites)[1..]
    {
      called := called + [Called(flight.value.write.callback, ok)];
      flight := None;
      if !alive {
        return;
      }
      if !ok {
        var _ := Invalidate();
      }
      writeInProgress := false;
      CheckPendingWrites();
    }

    /** The destructor does not send the signal. */
    method Destroy()
      requires alive
      modifies this
      ensures Abs() == Apply(old(Abs()), IsDestroyed)
      ensures !alive && invalidated && pendingWrites == []
      ensures called == old(called) + Aborted(old(pendingWrites))
    {
      if !invalidated {
        invalidated := true;
      }
      CheckPendingWrites();
      alive := false;
    }
  }
}
