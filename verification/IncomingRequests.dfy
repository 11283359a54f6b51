/** The manager of incoming requests: which answer goes out under which id. */
module IncomingRequests {
  import opened Wrappers
  import opened Bytes
  import Endpoint

  /**
   `requests` lists the ids of the requests that came in; a context is numbered by its place
   there.  `registered` is the manager's table, `written` the answers on their way, each with
   the context it came from, `settled` the contexts that were answered or gave up.
   */
  datatype System = System(
    requests: seq<SizeT>,
    registered: map<SizeT, nat>,
    settled: set<nat>,
    written: seq<(SizeT, nat)>)

  const START := System([], map[], {}, [])

  datatype Event = Comes(id: SizeT) | Answers(context: nat) | GivesUp(context: nat)

  /** Only the table keeps a context alive. */
  ghost predicate Live(s: System, c: nat) {
    c < |s.requests| && s.requests[c] in s.registered && s.registered[s.requests[c]] == c
  }

  ghost predicate Enabled(s: System, e: Event) {
    match e
    case Comes(_) => true
    case Answers(c) => Live(s, c)
    case GivesUp(c) => Live(s, c)
  }

  function Apply(s: System, e: Event): System
    requires Enabled(s, e)
  {
    match e
    case Comes(id) =>
      s.(requests := s.requests + [id],
         registered := if id in s.registered then s.registered else s.registered[id := |s.requests|])
    case Answers(c) =>
      s.(registered := s.registered - {s.requests[c]}, settled := s.settled + {c},
         written := s.written + [(s.requests[c], c)])
    case GivesUp(c) =>
      s.(registered := s.registered - {s.requests[c]}, settled := s.settled + {c})
  }

  ghost predicate Run(s: System, es: seq<Event>, u: System)
    decreases |es|
  {
    if es == [] then s == u else Enabled(s, es[0]) && Run(Apply(s, es[0]), es[1..], u)
  }

  ghost predicate Sound(s: System) {
    && (forall id {:trigger s.registered[id]} :: id in s.registered ==>
          Live(s, s.registered[id]) && s.requests[s.registered[id]] == id && s.registered[id] !in s.settled)
    && (forall c {:trigger c in s.settled} :: c in s.settled ==> c < |s.requests|)
    && (forall k {:trigger s.written[k]} :: 0 <= k < |s.written| ==>
          s.written[k].1 in s.settled && s.written[k].0 == s.requests[s.written[k].1])
    && (forall j, k :: 0 <= j < k < |s.written| ==> s.written[j].1 != s.written[k].1)
  }

  /** No earlier request bears the id of request `c`. */
  ghost predicate First(ids: seq<SizeT>, c: nat)
    requires c < |ids|
  {
    forall d {:trigger ids[d]} :: 0 <= d < c ==> ids[d] != ids[c]
  }

  /** A request is left out only if an earlier one bears its id. */
  ghost predicate NoneSkipped(s: System) {
    forall c: nat {:trigger Live(s, c)} :: c < |s.requests| && First(s.requests, c) ==> c in s.settled || Live(s, c)
  }

  ghost predicate Distinct(ids: seq<SizeT>) {
    forall i, j :: 0 <= i < j < |ids| ==> ids[i] != ids[j]
  }

  lemma {:induction false} ComesKeeps(s: System, id: SizeT)
    requires Sound(s)
    ensures Sound(Apply(s, Comes(id)))
    ensures NoneSkipped(s) ==> NoneSkipped(Apply(s, Comes(id)))
  {
    var u := Apply(s, Comes(id));
    if id !in s.registered {
      assert Live(u, |s.requests|);
    } else {
      assert u.requests[s.registered[id]] == id;
    }
    forall c: nat | Live(s, c) ensures Live(u, c) {
      assert u.requests[c] == s.requests[c];
    }
    forall c: nat | c < |s.requests| && First(u.requests, c) ensures First(s.requests, c) {
      assert forall d :: 0 <= d <= c ==> s.requests[d] == u.requests[d];
    }
  }

  lemma {:induction false} LeavesKeeps(s: System, c: nat)
    requires Sound(s) && Live(s, c)
    ensures Sound(Apply(s, Answers(c))) && Sound(Apply(s, GivesUp(c)))
    ensures NoneSkipped(s) ==> NoneSkipped(Apply(s, Answers(c))) && NoneSkipped(Apply(s, GivesUp(c)))
  {
    forall d: nat | Live(s, d) && d != c ensures Live(Apply(s, Answers(c)), d) && Live(Apply(s, GivesUp(c)), d) {
      assert s.registered[s.requests[d]] == d;
    }
  }

  lemma {:induction false} StepKeeps(s: System, e: Event)
    requires Sound(s) && Enabled(s, e)
    ensures Sound(Apply(s, e))
    ensures s.requests <= Apply(s, e).requests
    ensures NoneSkipped(s) ==> NoneSkipped(Apply(s, e))
  {
    hide Sound, NoneSkipped;
    match e {
      case Comes(id) => ComesKeeps(s, id);
      case Answers(c) => LeavesKeeps(s, c);
      case GivesUp(c) => LeavesKeeps(s, c);
    }
  }

  lemma {:induction false} RunSound(s: System, es: seq<Event>, u: System)
    requires Sound(s) && Run(s, es, u)
    ensures Sound(u) && s.requests <= u.requests
    ensures NoneSkipped(s) ==> NoneSkipped(u)
    decreases |es|
  {
    if es != [] {
      hide Apply, NoneSkipped, Sound;
      StepKeeps(s, es[0]);
      RunSound(Apply(s, es[0]), es[1..], u);
    }
  }

  lemma StartIsSound()
    ensures Sound(START) && NoneSkipped(START)
  {
  }

  /** An answer of request `c` went out. */
  ghost predicate Written(s: System, c: nat) {
    exists k {:trigger s.written[k]} :: 0 <= k < |s.written| && s.written[k].1 == c
  }

  lemma {:induction false} WrittenBy(s: System, e: Event, c: nat)
    requires Enabled(s, e)
    ensures Written(Apply(s, e), c) <==> Written(s, c) || e == Answers(c)
  {
    var t := Apply(s, e);
    assert e.Answers? ==> t.written[|s.written|].1 == e.context;
    if k :| 0 <= k < |s.written| && s.written[k].1 == c {
      assert t.written[k].1 == c;
    }
  }

  /** Whom the run answered, and who gave up. */
  lemma {:induction false} RunSettles(s: System, es: seq<Event>, u: System, c: nat)
    requires Run(s, es, u)
    ensures c in u.settled <==> c in s.settled || Answers(c) in es || GivesUp(c) in es
    ensures Written(u, c) <==> Written(s, c) || Answers(c) in es
    decreases |es|
  {
    if es != [] {
      hide Written;
      RunSettles(Apply(s, es[0]), es[1..], u, c);
      WrittenBy(s, es[0], c);
      assert es == [es[0]] + es[1..];
    }
  }

  /**
   In every run an answer goes out for exactly the requests that were answered, under the id
   of its request and once.  A request whose id no earlier one bears is served until it is
   answered or given up, so when the peer never repeats an id every request is.
   */
  lemma {:induction false} AnswersFitTheirRequests(es: seq<Event>, u: System)
    requires Run(START, es, u)
    ensures forall k :: 0 <= k < |u.written| ==>
      u.written[k].1 < |u.requests| && u.written[k].0 == u.requests[u.written[k].1] && !Live(u, u.written[k].1)
    ensures forall j, k :: 0 <= j < k < |u.written| ==> u.written[j].1 != u.written[k].1
    ensures forall c: nat :: Written(u, c) <==> Answers(c) in es
    ensures forall c: nat :: c < |u.requests| && First(u.requests, c) ==>
      (Live(u, c) <==> Answers(c) !in es && GivesUp(c) !in es)
    ensures Distinct(u.requests) ==> forall c: nat :: c < |u.requests| ==>
      (Live(u, c) <==> Answers(c) !in es && GivesUp(c) !in es)
  {
    hide Run;
    StartIsSound();
    RunSound(START, es, u);
    forall c: nat
      ensures c in u.settled <==> Answers(c) in es || GivesUp(c) in es
      ensures Written(u, c) <==> Answers(c) in es
    {
      RunSettles(START, es, u, c);
    }
    forall c: nat | Live(u, c) ensures c !in u.settled {
      assert u.registered[u.requests[c]] == c;
    }
    if Distinct(u.requests) {
      forall c: nat | c < |u.requests| ensures First(u.requests, c) {
      }
    }
  }

  /** The table and the frames are the manager's; the rest is history. */
  class IncomingRequestsManager {
    var registeredContexts: map<SizeT, nat>
    var frames: seq<seq<Bytes>>
    ghost var requests: seq<SizeT>
    ghost var settled: set<nat>
    ghost var written: seq<(SizeT, nat)>

    ghost function Abs(): System
      reads this
    {
      System(requests, registeredContexts, settled, written)
    }

    constructor ()
      ensures Abs() == START && frames == []
    {
      registeredContexts, frames := map[], [];
      requests, settled, written := [], {}, [];
    }

    /** A new context comes for `responseId`; an id that is taken is left alone. */
    method RegisterContext(responseId: SizeT, context: nat)
      requires context == |requests|
      modifies this`registeredContexts, this`requests
      ensures Abs() == Apply(old(Abs()), Comes(responseId))
      ensures responseId in old(registeredContexts) ==> registeredContexts == old(registeredContexts)
      ensures responseId !in old(registeredContexts) ==>
        registeredContexts == old(registeredContexts)[responseId := context]
    {
      requests := requests + [responseId];
      if responseId in registeredContexts {
        return;
      }
      registeredContexts := registeredContexts[responseId := context];
    }

    /** Forgets the context and writes its answer under the request's id. */
    method OnResponseReceived(responseId: SizeT, response: Option<Endpoint.Response>, ghost context: nat)
      requires Live(Abs(), context) && requests[context] == responseId
      modifies this
      ensures Abs() == Apply(old(Abs()), if response.Some? then Answers(context) else GivesUp(context))
      ensures registeredContexts == old(registeredContexts) - {responseId}
      ensures response.None? ==> frames == old(frames)
      ensures response.Some? ==> old(frames) < frames && |frames| == |old(frames)| + 1
      ensures response.Some? ==> Flatten(frames[|old(frames)|]) == Endpoint.ResponseBytes(responseId, response.value)
    {
      registeredContexts := registeredContexts - {responseId};
      settled := settled + {context};
      if response == None {
        return;
      }
      var frame := Endpoint.FrameOfResponse(responseId, response.value);
      frames := frames + [frame];
      written := written + [(responseId, context)];
    }

    method OnInvalidResponseReceived(responseId: SizeT, ghost context: nat)
      requires Live(Abs(), context) && requests[context] == responseId
      modifies this`registeredContexts, this`settled
      ensures Abs() == Apply(old(Abs()), GivesUp(context))
      ensures registeredContexts == old(registeredContexts) - {responseId}
    {
      registeredContexts := registeredContexts - {responseId};
      settled := settled + {context};
    }
  }
}
