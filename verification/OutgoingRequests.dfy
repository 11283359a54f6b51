/**
 The manager of outgoing requests as a state machine: every interleaving of its callers, its
 timers, its socket and its own destruction.
 */
module OutgoingRequests {
  import opened Wrappers
  import opened RequestTable

  // ---- any interleaving ----

  /**
   `calls` lists the contexts handed to `sendRequest`.  `queued` are those whose posted
   handler has not run, `sent` records the call each issued request belongs to, `orphaned`
   the calls whose handler found the manager destroyed, `delayed` the issued requests whose
   frame is not written yet, and `written` the frames handed to the socket.
   */
  datatype System<A> = System(
    calls: nat,
    queued: set<nat>,
    table: Table<nat, A>,
    orphaned: set<nat>,
    delayed: set<nat>,
    written: set<nat>,
    socketOpen: bool,
    alive: bool)

  datatype Event<A> =
    | Send
    | RunPosted(call: nat)
    | DelayOver(id: nat)
    | Response(id: nat, decoded: Option<A>)
    | Timeout(id: nat)
    | SocketInvalidated
    | Destroyed

  function Initial<A>(): System<A> {
    System(0, {}, NoRequests(), {}, {}, {}, true, true)
  }

  /** Only a live manager reacts; a stale timer or a repeated response may still come. */
  ghost predicate Enabled<A>(s: System<A>, e: Event<A>) {
    match e
    case Send => true
    case RunPosted(call) => call in s.queued
    case DelayOver(id) => id in s.delayed
    case Response(_, _) => s.alive && s.socketOpen
    case Timeout(_) => s.alive
    case SocketInvalidated => s.alive && s.socketOpen
    case Destroyed => s.alive
  }

  function Step<A>(s: System<A>, e: Event<A>): System<A>
    requires Enabled(s, e)
  {
    match e
    case Send => s.(calls := s.calls + 1, queued := s.queued + {s.calls})
    case RunPosted(call) =>
      var s := s.(queued := s.queued - {call});
      if s.alive then s.(table := Issue(s.table, call), delayed := s.delayed + {|s.table.issued|})
      else s.(orphaned := s.orphaned + {call})
    case DelayOver(id) =>
      var s := s.(delayed := s.delayed - {id});
      if !s.alive then s
      else if !s.socketOpen then s.(table := Resolve(s.table, id, Failed(PEER_DISCONNECTED)))
      else s.(written := s.written + {id})
    case Response(id, decoded) => s.(table := Resolve(s.table, id, OutcomeOf(decoded)))
    case Timeout(id) => s.(table := Resolve(s.table, id, Failed(TIMEOUT)))
    case SocketInvalidated => s.(socketOpen := false, table := ResolveAll(s.table, PEER_DISCONNECTED))
    case Destroyed => s.(alive := false, table := ResolveAll(s.table, PEER_DISCONNECTED))
  }

  ghost predicate Run<A>(s: System<A>, es: seq<Event<A>>, u: System<A>)
    decreases |es|
  {
    if es == [] then s == u else Enabled(s, es[0]) && Run(Step(s, es[0]), es[1..], u)
  }

  /**
   Every call is in exactly one place, under one request id at most, and each request whose
   frame is neither written nor given up is still waiting for its delay.
   */
  ghost predicate Accounted<A>(s: System<A>) {
    && Conserved(s.table)
    && (forall c: nat {:trigger c in s.queued} {:trigger c in s.orphaned} {:trigger c in s.table.issued} ::
          && (c < s.calls <==> c in s.queued || c in s.orphaned || c in s.table.issued)
          && !(c in s.queued && c in s.orphaned)
          && !(c in s.queued && c in s.table.issued)
          && !(c in s.orphaned && c in s.table.issued))
    && (forall i, j :: 0 <= i < j < |s.table.issued| ==> s.table.issued[i] != s.table.issued[j])
    && (!s.alive ==> s.table.pending == {})
    && (forall i {:trigger i in s.written} {:trigger i in s.delayed} ::
          i in s.written || i in s.delayed ==> i < |s.table.issued|)
    && s.written !! s.delayed
    && (forall i {:trigger i in s.table.pending} ::
          i in s.table.pending && !s.socketOpen ==> i in s.delayed)
  }

  lemma {:induction false} TableAfter<A>(s: System<A>, e: Event<A>)
    requires Conserved(s.table) && Enabled(s, e)
    ensures Conserved(Step(s, e).table) && Later(s.table, Step(s, e).table)
  {
    hide Conserved, Later;
    match e {
      case RunPosted(call) => TableSteps(s.table, call, 0, Failed(TIMEOUT), TIMEOUT);
      case DelayOver(id) => TableSteps(s.table, 0, id, Failed(PEER_DISCONNECTED), TIMEOUT);
      case Response(id, decoded) => TableSteps(s.table, 0, id, OutcomeOf(decoded), TIMEOUT);
      case Timeout(id) => TableSteps(s.table, 0, id, Failed(TIMEOUT), TIMEOUT);
      case _ => TableSteps(s.table, 0, 0, Failed(TIMEOUT), PEER_DISCONNECTED);
    }
    LaterSame(s.table);
  }

  lemma {:induction false} StepAccounted<A>(s: System<A>, e: Event<A>)
    requires Accounted(s) && Enabled(s, e)
    ensures Accounted(Step(s, e)) && Later(s.table, Step(s, e).table)
  {
    TableAfter(s, e);
    hide Conserved, Later;
    var u := Step(s, e);
    match e {
      case Send =>
        assert s.calls !in s.queued && s.calls !in s.orphaned && s.calls !in s.table.issued;
      case RunPosted(call) =>
        if s.alive {
          forall c: nat ensures c in u.table.issued <==> c == call || c in s.table.issued {
            assert u.table.issued == s.table.issued + [call];
          }
        }
      case _ => assert u.table.issued == s.table.issued;
    }
  }

  lemma {:induction false} RunAccounted<A>(s: System<A>, es: seq<Event<A>>, u: System<A>)
    requires Accounted(s) && Run(s, es, u)
    ensures Accounted(u) && Later(s.table, u.table)
    decreases |es|
  {
    if es != [] {
      hide Accounted, Step;
      StepAccounted(s, es[0]);
      RunAccounted(Step(s, es[0]), es[1..], u);
    }
  }

  lemma InitialAccounted<A>()
    ensures Accounted(Initial<A>())
  {
  }

  // ---- why a request ends ----

  /** Event `e` ends pending request `i` with outcome `o`. */
  ghost predicate Ends<A>(s: System<A>, e: Event<A>, i: nat, o: Outcome<A>) {
    || (e == Timeout(i) && o == Failed(TIMEOUT))
    || (e.Response? && e.id == i && e.decoded.Some? && o == Answer(e.decoded.value))
    || (e.Response? && e.id == i && e.decoded.None? && o == Failed(BAD_RESPONSE_FRAME))
    || (e == DelayOver(i) && s.alive && !s.socketOpen && o == Failed(PEER_DISCONNECTED))
    || ((e.SocketInvalidated? || e.Destroyed?) && o == Failed(PEER_DISCONNECTED))
  }

  lemma {:induction false} StepEnds<A>(s: System<A>, e: Event<A>, i: nat, o: Outcome<A>)
    requires Conserved(s.table) && Enabled(s, e) && i in s.table.pending
    ensures (i in Step(s, e).table.resolved && Step(s, e).table.resolved[i] == o) <==> Ends(s, e, i, o)
    ensures i in Step(s, e).table.pending <==> i !in Step(s, e).table.resolved
  {
    assert i !in s.table.resolved;
  }

  lemma {:induction false} NobodyElseEnds<A>(s: System<A>, e: Event<A>, i: nat)
    requires Enabled(s, e) && i !in s.table.pending
    ensures i in Step(s, e).table.resolved <==> i in s.table.resolved
    ensures i in s.table.resolved ==> Step(s, e).table.resolved[i] == s.table.resolved[i]
  {
  }

  /** Somewhere in the run request `i` was pending and an event ended it with outcome `o`. */
  ghost predicate Ended<A>(s: System<A>, es: seq<Event<A>>, i: nat, o: Outcome<A>)
    decreases |es|
  {
    es != [] && Enabled(s, es[0]) &&
    ((i in s.table.pending && Ends(s, es[0], i, o)) || Ended(Step(s, es[0]), es[1..], i, o))
  }

  lemma {:induction false} RunEnds<A>(s: System<A>, es: seq<Event<A>>, u: System<A>, i: nat, o: Outcome<A>)
    requires Accounted(s) && Run(s, es, u)
    ensures (i in u.table.resolved && u.table.resolved[i] == o) <==>
      (i in s.table.resolved && s.table.resolved[i] == o) || Ended(s, es, i, o)
    decreases |es|
  {
    if es != [] {
      StepAccounted(s, es[0]);
      RunEnds(Step(s, es[0]), es[1..], u, i, o);
      assert Conserved(s.table);
      hide Accounted, Step, Later, Ends;
      if i in s.table.pending {
        StepEnds(s, es[0], i, o);
        assert i !in s.table.resolved;
      } else {
        NobodyElseEnds(s, es[0], i);
      }
    }
  }

  /**
   In every run a request has outcome `o` if and only if, while it was pending, the one event
   came that ends it so: its timeout, a response with its id, the end of its delay when the
   socket is gone, the loss of the socket or the end of the manager.
   */
  lemma {:induction false} OutcomeIff<A>(es: seq<Event<A>>, u: System<A>, i: nat, o: Outcome<A>)
    requires Run(Initial<A>(), es, u)
    ensures (i in u.table.resolved && u.table.resolved[i] == o) <==> Ended(Initial<A>(), es, i, o)
  {
    hide Run, Accounted, Ended;
    InitialAccounted<A>();
    RunEnds(Initial<A>(), es, u, i, o);
  }

  // ---- what is written ----

  /** Somewhere in the run the delay of request `i` was over while manager and socket were there. */
  ghost predicate Sent<A>(s: System<A>, es: seq<Event<A>>, i: nat)
    decreases |es|
  {
    es != [] && Enabled(s, es[0]) &&
    ((es[0] == DelayOver(i) && s.alive && s.socketOpen) || Sent(Step(s, es[0]), es[1..], i))
  }

  lemma {:induction false} RunSends<A>(s: System<A>, es: seq<Event<A>>, u: System<A>, i: nat)
    requires Run(s, es, u)
    ensures i in u.written <==> i in s.written || Sent(s, es, i)
    decreases |es|
  {
    if es != [] {
      RunSends(Step(s, es[0]), es[1..], u, i);
      hide Issue, Resolve, ResolveAll;
    }
  }

  /**
   A request's frame is given to the socket exactly when its delay was over while both manager
   and socket were there.  Once the socket is gone a request only pends until its delay is over.
   */
  lemma {:induction false} WrittenIff<A>(es: seq<Event<A>>, u: System<A>, i: nat)
    requires Run(Initial<A>(), es, u)
    ensures i in u.written <==> Sent(Initial<A>(), es, i)
    ensures i in u.table.pending && !u.socketOpen ==> i in u.delayed
  {
    hide Run, Sent;
    InitialAccounted<A>();
    RunAccounted(Initial<A>(), es, u);
    RunSends(Initial<A>(), es, u, i);
  }

  /** Issued requests split exactly into pending and resolved ones, each call under one id. */
  ghost predicate SplitsExactly<A>(s: System<A>) {
    && (forall c: nat {:trigger c in s.table.issued} ::
          c < s.calls <==> c in s.queued || c in s.orphaned || c in s.table.issued)
    && (forall c: nat {:trigger c in s.table.issued} ::
          c in s.table.issued ==> c !in s.queued && c !in s.orphaned)
    && s.queued !! s.orphaned
    && (forall i, j :: 0 <= i < j < |s.table.issued| ==> s.table.issued[i] != s.table.issued[j])
    && (forall i: nat {:trigger i in s.table.pending} ::
          i < |s.table.issued| <==> i in s.table.pending || i in s.table.resolved)
    && s.table.pending !! s.table.resolved.Keys
  }

  /**
   In every run, whatever the interleaving of sends, posted handlers, delayed writes,
   responses, timeouts, a broken socket and destruction: each call is queued, orphaned or
   issued and only one of these, under one id; each issued request is pending or resolved and
   only one of these; after destruction nothing is pending; and whatever the run goes on
   with, an outcome is final and an id keeps its call.
   */
  lemma {:induction false} RequestConservation<A>(es: seq<Event<A>>, s: System<A>, fs: seq<Event<A>>, u: System<A>)
    requires Run(Initial<A>(), es, s) && Run(s, fs, u)
    ensures SplitsExactly(s) && (!s.alive ==> s.table.pending == {})
    ensures s.table.issued <= u.table.issued
    ensures forall i :: i in s.table.resolved ==> i in u.table.resolved && u.table.resolved[i] == s.table.resolved[i]
  {
    hide Step;
    InitialAccounted<A>();
    RunAccounted(Initial<A>(), es, s);
    RunAccounted(s, fs, u);
    hide Run;
    assert s.queued !! s.orphaned;
  }
}
