/**
 The manager of outgoing requests as the class it is: a table of pending requests, their
 timers and an id counter.  Its methods refine the clocked state machine.
 */
module OutgoingRequestsManager {
  import opened Wrappers
  import opened Bytes
  import opened RequestTable
  import opened Timeouts
  import O = OutgoingRequests
  import Endpoint

  /** The promise a caller of `sendRequest` waits for. */
  class Context<A(==)> {
    const decode: Bytes -> Option<A>
    var promiseFilled: bool
    var outcome: Option<Outcome<A>>

    constructor (decode: Bytes -> Option<A>)
      ensures !promiseFilled && outcome == None && this.decode == decode
    {
      this.decode := decode;
      promiseFilled, outcome := false, None;
    }

    method Invalidate(reason: InvalidationReason)
      requires promiseFilled == outcome.Some?
      modifies this
      ensures promiseFilled && outcome == if old(outcome).Some? then old(outcome) else Some(Failed(reason))
    {
      if promiseFilled {
        return;
      }
      promiseFilled := true;
      outcome := Some(Failed(reason));
    }

    method OnResponseReceived(payload: Bytes)
      requires promiseFilled == outcome.Some?
      modifies this
      ensures promiseFilled
      ensures outcome == if old(outcome).Some? then old(outcome) else Some(OutcomeOf(decode(payload)))
    {
      if promiseFilled {
        return;
      }
      var response := decode(payload);
      if response == None {
        Invalidate(BAD_RESPONSE_FRAME);
      } else {
        promiseFilled := true;
        outcome := Some(Answer(response.value));
      }
    }
  }

  // ---- what the state machine says about a promise ----

  /** The part of the accounting that promises depend on. */
  ghost predicate Facts<A>(s: O.System<A>) {
    && s.queued !! s.orphaned
    && (forall c {:trigger c in s.queued} :: c in s.queued ==> c < s.calls && c !in s.table.issued)
    && (forall c {:trigger c in s.orphaned} :: c in s.orphaned ==> c < s.calls && c !in s.table.issued)
    && (forall i {:trigger s.table.issued[i]} :: 0 <= i < |s.table.issued| ==> s.table.issued[i] < s.calls)
    && (forall i, j :: 0 <= i < j < |s.table.issued| ==> s.table.issued[i] != s.table.issued[j])
    && s.table.pending !! s.table.resolved.Keys
    && (forall i {:trigger i in s.table.pending} :: i in s.table.pending ==> i < |s.table.issued|)
    && (forall i {:trigger i in s.table.resolved} :: i in s.table.resolved ==> i < |s.table.issued|)
  }

  lemma {:induction false} AccountedFacts<A>(s: O.System<A>)
    requires O.Accounted(s)
    ensures Facts(s)
  {
    forall i | 0 <= i < |s.table.issued| ensures s.table.issued[i] < s.calls {
      assert s.table.issued[i] in s.table.issued;
    }
  }

  lemma {:induction false} StepFacts<A(!new)>(c: Clocked<A>, event: O.Event<A>, responseTimeout: nat)
    requires Reached(c, responseTimeout) && Enabled(c, Happens(event))
    ensures Facts(c.system) && c.timers.Keys == c.system.table.pending
    ensures Reached(Step(c, Happens(event), responseTimeout), responseTimeout)
    ensures Facts(Step(c, Happens(event), responseTimeout).system)
  {
    hide Reached, O.Accounted, Facts, Enabled, O.Step;
    StepReached(c, Happens(event), responseTimeout);
    ReachedIsSound(c, responseTimeout);
    ReachedIsSound(Step(c, Happens(event), responseTimeout), responseTimeout);
    AccountedFacts(c.system);
    AccountedFacts(Step(c, Happens(event), responseTimeout).system);
  }

  ghost predicate ResolvedAs<A>(s: O.System<A>, c: nat, i: nat) {
    i < |s.table.issued| && s.table.issued[i] == c && i in s.table.resolved
  }

  /** What the promise of call `c` has been told. */
  ghost function Expect<A>(s: O.System<A>, c: nat): Option<Outcome<A>> {
    if c in s.orphaned then Some(Failed(PEER_DISCONNECTED))
    else if exists i: nat :: ResolvedAs(s, c, i) then
      var i: nat :| ResolvedAs(s, c, i);
      Some(s.table.resolved[i])
    else None
  }

  lemma {:induction false} ExpectIssued<A>(s: O.System<A>, i: nat)
    requires Facts(s) && i < |s.table.issued|
    ensures Expect(s, s.table.issued[i]) == if i in s.table.resolved then Some(s.table.resolved[i]) else None
  {
    var c := s.table.issued[i];
    assert c in s.table.issued;
    forall j: nat | ResolvedAs(s, c, j) ensures j == i {
    }
    if i in s.table.resolved {
      assert ResolvedAs(s, c, i);
    }
  }

  lemma {:induction false} ExpectUnissued<A>(s: O.System<A>, c: nat)
    requires c !in s.table.issued
    ensures Expect(s, c) == if c in s.orphaned then Some(Failed(PEER_DISCONNECTED)) else None
  {
    forall i: nat ensures !ResolvedAs(s, c, i) {
      assert i < |s.table.issued| ==> s.table.issued[i] in s.table.issued;
    }
  }

  /** A promise is open exactly as long as its call is queued or its request pending. */
  lemma {:induction false} ExpectNone<A>(s: O.System<A>, c: nat)
    requires O.Accounted(s) && c < s.calls
    ensures Expect(s, c) == None <==> c in s.queued || exists i :: i in s.table.pending && s.table.issued[i] == c
  {
    AccountedFacts(s);
    hide Expect;
    if c in s.table.issued {
      var i :| 0 <= i < |s.table.issued| && s.table.issued[i] == c;
      ExpectIssued(s, i);
    } else {
      ExpectUnissued(s, c);
    }
  }

  /** A promise that a change does not concern. */
  lemma {:induction false} ExpectElsewhere<A>(s: O.System<A>, u: O.System<A>, c: nat)
    requires Facts(s) && Facts(u) && s.table.issued <= u.table.issued
    requires c in s.orphaned <==> c in u.orphaned
    requires c in u.table.issued ==> c in s.table.issued
    requires forall i {:trigger s.table.issued[i]} :: 0 <= i < |s.table.issued| && s.table.issued[i] == c ==>
      (i in s.table.resolved <==> i in u.table.resolved)
      && (i in s.table.resolved ==> u.table.resolved[i] == s.table.resolved[i])
    ensures Expect(u, c) == Expect(s, c)
  {
    hide Expect;
    if c in s.table.issued {
      var i :| 0 <= i < |s.table.issued| && s.table.issued[i] == c;
      ExpectIssued(s, i);
      ExpectIssued(u, i);
    } else {
      ExpectUnissued(s, c);
      ExpectUnissued(u, c);
    }
  }

  /** From `s` to `u` the promise of call `k` is told `o`, and no other is told anything. */
  ghost predicate Tells<A>(s: O.System<A>, u: O.System<A>, k: nat, o: Option<Outcome<A>>) {
    && Expect(s, k) == None && Expect(u, k) == o
    && forall c: nat {:trigger Expect(u, c)} :: c != k ==> Expect(u, c) == Expect(s, c)
  }

  lemma {:induction false} ResolveTells<A>(s: O.System<A>, id: nat, o: Outcome<A>)
    requires Facts(s) && id in s.table.pending
    ensures Facts(s.(table := Resolve(s.table, id, o)))
    ensures Tells(s, s.(table := Resolve(s.table, id, o)), s.table.issued[id], Some(o))
  {
    var u := s.(table := Resolve(s.table, id, o));
    hide Expect;
    ExpectIssued(s, id);
    ExpectIssued(u, id);
    forall c: nat | c != s.table.issued[id] ensures Expect(u, c) == Expect(s, c) {
      ExpectElsewhere(s, u, c);
    }
  }

  /** A posted handler tells its own promise that nobody is there, if nobody is. */
  lemma {:induction false} PostedTells<A>(s: O.System<A>, call: nat)
    requires Facts(s) && call in s.queued && Facts(O.Step(s, O.RunPosted(call)))
    ensures Tells(s, O.Step(s, O.RunPosted(call)), call,
                  if s.alive then None else Some(Failed(PEER_DISCONNECTED)))
  {
    var u := O.Step(s, O.RunPosted(call));
    hide Expect;
    ExpectUnissued(s, call);
    if s.alive {
      assert u.table.issued[|s.table.issued|] == call;
      ExpectIssued(u, |s.table.issued|);
    } else {
      ExpectUnissued(u, call);
    }
    forall c: nat | c != call ensures Expect(u, c) == Expect(s, c) {
      ExpectElsewhere(s, u, c);
    }
  }

  lemma {:induction false} NothingTold<A>(s: O.System<A>, u: O.System<A>)
    requires Facts(s) && u.table == s.table && u.calls == s.calls && u.queued == s.queued && u.orphaned == s.orphaned
    ensures Facts(u)
    ensures forall c: nat {:trigger Expect(u, c)} :: Expect(u, c) == Expect(s, c)
  {
    hide Expect;
    assert Facts(u);
    hide Facts;
    forall c: nat ensures Expect(u, c) == Expect(s, c) {
      ExpectElsewhere(s, u, c);
    }
  }

  lemma {:induction false} SendTellsNobody<A>(s: O.System<A>)
    requires Facts(s)
    ensures Expect(O.Step(s, O.Send), s.calls) == None
    ensures forall c: nat {:trigger Expect(O.Step(s, O.Send), c)} :: c < s.calls ==>
      Expect(O.Step(s, O.Send), c) == Expect(s, c)
  {
    var u := O.Step(s, O.Send);
    assert s.calls !in s.table.issued;
    hide Expect;
    ExpectUnissued(u, s.calls);
    forall c: nat | c < s.calls ensures Expect(u, c) == Expect(s, c) {
      if c in s.table.issued {
        var i :| 0 <= i < |s.table.issued| && s.table.issued[i] == c;
        ExpectIssued(s, i);
        ExpectIssued(u, i);
      } else {
        ExpectUnissued(s, c);
        ExpectUnissued(u, c);
      }
    }
  }

  /** A table in which the requests `done` have been failed. */
  function FailSome<P, A>(t: Table<P, A>, done: set<nat>, reason: InvalidationReason): Table<P, A> {
    t.(pending := t.pending - done, resolved := t.resolved + map i | i in done :: Failed(reason))
  }

  lemma {:induction false} FailOneMore<P, A>(t: Table<P, A>, done: set<nat>, id: nat, reason: InvalidationReason)
    requires id in t.pending && id !in done
    ensures Resolve(FailSome(t, done, reason), id, Failed(reason)) == FailSome(t, done + {id}, reason)
  {
    var a, b := Resolve(FailSome(t, done, reason), id, Failed(reason)), FailSome(t, done + {id}, reason);
    assert a.pending == b.pending;
    assert a.resolved == b.resolved;
  }

  lemma {:induction false} FailNoneAndAll<P, A>(t: Table<P, A>, reason: InvalidationReason)
    ensures FailSome(t, {}, reason) == t
    ensures FailSome(t, t.pending, reason) == ResolveAll(t, reason)
  {
    assert FailSome(t, {}, reason).pending == t.pending;
    assert FailSome(t, {}, reason).resolved == t.resolved;
    assert FailSome(t, t.pending, reason).pending == {};
  }

  // ---- the steps, written out ----

  lemma IssuedStep<A>(c: Clocked<A>, call: nat, responseTimeout: nat)
    requires c.system.alive && call in c.system.queued
    ensures Step(c, Happens(O.RunPosted(call)), responseTimeout) == Clocked(
      c.system.(queued := c.system.queued - {call}, table := Issue(c.system.table, call),
                delayed := c.system.delayed + {|c.system.table.issued|}),
      c.issuedAt + [c.now], c.timers[|c.system.table.issued| := c.now + responseTimeout], c.now)
  {
  }

  /** What a live manager's handler makes of the state. */
  lemma {:induction false} IssueFacts<A(!new)>(c: Clocked<A>, call: nat, responseTimeout: nat)
    requires Reached(c, responseTimeout) && c.system.alive && call in c.system.queued
    ensures Reached(Step(c, Happens(O.RunPosted(call)), responseTimeout), responseTimeout)
    ensures Tells(c.system, Step(c, Happens(O.RunPosted(call)), responseTimeout).system, call, None)
    ensures forall i {:trigger i in c.system.table.pending} :: i in c.system.table.pending ==>
      i < |c.system.table.issued|
  {
    StepFacts(c, O.RunPosted(call), responseTimeout);
    PostedTells(c.system, call);
    hide Reached, Tells;
  }

  lemma ResponseStep<A>(c: Clocked<A>, id: nat, decoded: Option<A>, responseTimeout: nat)
    requires c.system.alive && c.system.socketOpen
    ensures Step(c, Happens(O.Response(id, decoded)), responseTimeout) == c.(
      system := c.system.(table := Resolve(c.system.table, id, OutcomeOf(decoded))), timers := c.timers - {id})
  {
  }

  lemma DelayStep<A>(c: Clocked<A>, id: nat, responseTimeout: nat)
    requires id in c.system.delayed
    ensures var s := c.system.(delayed := c.system.delayed - {id});
      Step(c, Happens(O.DelayOver(id)), responseTimeout) ==
        if !s.alive then c.(system := s)
        else if s.socketOpen then c.(system := s.(written := s.written + {id}))
        else c.(system := s.(table := Resolve(s.table, id, Failed(PEER_DISCONNECTED))), timers := c.timers - {id})
  {
  }

  lemma EndSteps<A>(c: Clocked<A>, responseTimeout: nat)
    requires c.system.alive
    ensures Step(c, Happens(O.Destroyed), responseTimeout) == c.(
      system := c.system.(alive := false, table := ResolveAll(c.system.table, PEER_DISCONNECTED)), timers := map[])
    ensures c.system.socketOpen ==> Step(c, Happens(O.SocketInvalidated), responseTimeout) == c.(
      system := c.system.(socketOpen := false, table := ResolveAll(c.system.table, PEER_DISCONNECTED)), timers := map[])
  {
  }

  // ---- the class ----

  /**
   `contexts` lists the contexts handed to `sendRequest` in order, `abs` is the state of the
   clocked state machine; both are history.  `now` is the clock.
   */
  class Manager<A(==, !new)> {
    const responseTimeout: nat
    var requestIdCounter: nat
    var pendingRequests: map<nat, Context<A>>
    var timers: map<nat, nat>
    var socketOpen: bool
    var alive: bool
    var now: nat
    ghost var contexts: seq<Context<A>>
    ghost var abs: Clocked<A>

    /** The fields are those of the abstract state, and the table holds the contexts handed over. */
    ghost predicate Linked()
      reads this
    {
      && requestIdCounter == |abs.system.table.issued|
      && pendingRequests.Keys == abs.system.table.pending
      && timers == abs.timers && now == abs.now
      && socketOpen == abs.system.socketOpen && alive == abs.system.alive
      && |contexts| == abs.system.calls
      && (forall c, d :: 0 <= c < d < |contexts| ==> contexts[c] != contexts[d])
      && (forall i {:trigger pendingRequests[i]} {:trigger i in pendingRequests} :: i in pendingRequests ==>
            && i < |abs.system.table.issued| && abs.system.table.issued[i] < |contexts|
            && pendingRequests[i] == contexts[abs.system.table.issued[i]])
    }

    /** Every promise says what it has been told in state `s`. */
    ghost predicate Told(s: O.System<A>)
      reads this`contexts, contexts
    {
      forall c {:trigger contexts[c]} :: 0 <= c < |contexts| ==>
        contexts[c].promiseFilled == contexts[c].outcome.Some? && contexts[c].outcome == Expect(s, c)
    }

    /** The manager is in a state that a run of the state machine reaches. */
    ghost predicate Valid()
      reads this, contexts
    {
      Reached(abs, responseTimeout) && Linked() && Told(abs.system)
    }

    /** The promise of a pending request. */
    lemma PendingContext(id: nat)
      requires Linked() && id in pendingRequests
      ensures id in abs.system.table.pending && id < |abs.system.table.issued|
      ensures abs.system.table.issued[id] < |contexts| && contexts[abs.system.table.issued[id]] == pendingRequests[id]
    {
    }

    /** The promise of a resolved request says how it was resolved. */
    lemma ToldOutcome(s: O.System<A>, id: nat)
      requires Told(s) && Facts(s) && id in s.table.resolved && s.table.issued[id] < |contexts|
      ensures contexts[s.table.issued[id]].outcome == Some(s.table.resolved[id])
    {
      ExpectIssued(s, id);
      hide Expect;
    }

    /** The promise that depends on request `id`, if it is pending. */
    ghost function Concerned(id: nat): set<Context<A>>
      reads this
    {
      if id in pendingRequests then {pendingRequests[id]} else {}
    }

    /**
     Every promise is open exactly as long as its posted handler has not run or its request is
     in the table; when the manager is gone, only the former.
     */
    lemma {:induction false} OpenIff(call: nat)
      requires Valid() && call < |contexts|
      ensures !contexts[call].promiseFilled <==>
        call in abs.system.queued || exists id :: id in pendingRequests && pendingRequests[id] == contexts[call]
      ensures !alive ==> (!contexts[call].promiseFilled <==> call in abs.system.queued)
    {
      hide Reached, Expect;
      ReachedIsSound(abs, responseTimeout);
      assert !alive ==> pendingRequests.Keys == {};
      hide O.Accounted;
      ExpectNone(abs.system, call);
      forall id | id in pendingRequests
        ensures abs.system.table.issued[id] == call <==> pendingRequests[id] == contexts[call]
      {
        PendingContext(id);
      }
    }

    lemma ToldSame(s: O.System<A>, u: O.System<A>)
      requires Told(s) && forall c: nat {:trigger Expect(u, c)} :: Expect(u, c) == Expect(s, c)
      ensures Told(u)
    {
      hide Expect;
    }

    lemma ToldNothing(s: O.System<A>, u: O.System<A>, k: nat)
      requires Told(s) && Tells(s, u, k, None)
      ensures Told(u)
    {
      hide Expect;
    }

    constructor (responseTimeout: nat)
      ensures Valid() && abs == Initial() && this.responseTimeout == responseTimeout
    {
      this.responseTimeout := responseTimeout;
      requestIdCounter, pendingRequests, timers, socketOpen, alive, now := 0, map[], map[], true, true, 0;
      contexts, abs := [], Initial();
      new;
      InitialReached<A>(responseTimeout);
      hide Reached;
    }

    /** Posts the handler; nothing else happens yet. */
    method SendRequest(context: Context<A>)
      requires Valid() && context !in contexts && !context.promiseFilled && context.outcome == None
      modifies this`contexts, this`abs
      ensures Valid() && abs == Step(old(abs), Happens(O.Send), responseTimeout)
      ensures contexts == old(contexts) + [context]
    {
      StepFacts(abs, O.Send, responseTimeout);
      SendTellsNobody(abs.system);
      hide Reached, Expect, Facts;
      contexts := contexts + [context];
      abs := Step(abs, Happens(O.Send), responseTimeout);
    }

    /** Puts the request into the table and arms its timer. */
    method Insert(ghost call: nat, context: Context<A>) returns (id: nat)
      requires Linked() && call < |contexts| && contexts[call] == context
      requires forall i :: i in pendingRequests ==> i < requestIdCounter
      modifies this`requestIdCounter, this`timers, this`pendingRequests, this`abs
      ensures Linked() && id == old(requestIdCounter) && pendingRequests == old(pendingRequests)[id := context]
      ensures timers == old(timers)[id := now + responseTimeout]
      ensures abs == Clocked(
        old(abs).system.(queued := old(abs).system.queued - {call}, table := Issue(old(abs).system.table, call),
                         delayed := old(abs).system.delayed + {id}),
        old(abs).issuedAt + [now], timers, now)
    {
      id := requestIdCounter;
      requestIdCounter := requestIdCounter + 1;
      timers := timers[id := now + responseTimeout];
      pendingRequests := pendingRequests[id := context];
      ghost var s := abs.system;
      abs := Clocked(
        s.(queued := s.queued - {call}, table := Issue(s.table, call), delayed := s.delayed + {id}),
        abs.issuedAt + [now], timers, now);
      assert pendingRequests.Keys == old(pendingRequests).Keys + {id};
      assert abs.system.table.issued == s.table.issued + [call];
    }

    /** Takes the next id, arms the timer and builds the frame that the delayed write will send. */
    method SendRequestImpl(ghost call: nat, context: Context<A>, request: Endpoint.Request)
      returns (id: nat, frame: seq<Bytes>)
      requires Valid() && alive && call in abs.system.queued && call < |contexts| && contexts[call] == context
      modifies this`requestIdCounter, this`timers, this`pendingRequests, this`abs
      ensures Valid() && abs == Step(old(abs), Happens(O.RunPosted(call)), responseTimeout)
      ensures id == |old(abs).system.table.issued| && timers == old(timers)[id := now + responseTimeout]
      ensures pendingRequests == old(pendingRequests)[id := context]
      ensures Flatten(frame) == Endpoint.RequestBytes(id % SIZE_LIMIT, request)
    {
      hide Reached, Told, Tells, Step, O.Step, Issue, Endpoint.RequestBytes;
      IssueFacts(abs, call, responseTimeout);
      ToldNothing(abs.system, Step(abs, Happens(O.RunPosted(call)), responseTimeout).system, call);
      IssuedStep(abs, call, responseTimeout);
      id := Insert(call, context);
      frame := Endpoint.FrameOfRequest(id % SIZE_LIMIT, request);
    }

    method Orphan(ghost call: nat, context: Context<A>)
      requires Valid() && !alive && call in abs.system.queued && call < |contexts| && contexts[call] == context
      modifies this`abs, context
      ensures Valid() && abs == Step(old(abs), Happens(O.RunPosted(call)), responseTimeout)
      ensures context.outcome == Some(Failed(PEER_DISCONNECTED))
    {
      ghost var u := Step(abs, Happens(O.RunPosted(call)), responseTimeout);
      StepFacts(abs, O.RunPosted(call), responseTimeout);
      PostedTells(abs.system, call);
      hide Reached, Facts, Told, Tells;
      TellFailure(context, abs.system, u.system, call, PEER_DISCONNECTED);
      abs := u;
    }

    /** The handler that `sendRequest` posted; it may find the manager destroyed. */
    method RunPosted(ghost call: nat, context: Context<A>, request: Endpoint.Request)
      returns (frame: Option<(nat, seq<Bytes>)>)
      requires Valid() && call in abs.system.queued && call < |contexts| && contexts[call] == context
      modifies this, context
      ensures Valid() && abs == Step(old(abs), Happens(O.RunPosted(call)), responseTimeout)
      ensures frame.Some? <==> old(alive)
      ensures frame.None? ==> context.outcome == Some(Failed(PEER_DISCONNECTED))
      ensures frame.Some? ==> context.outcome == old(context.outcome)
      ensures frame.Some? ==> pendingRequests == old(pendingRequests)[frame.value.0 := context]
      ensures frame.Some? ==> frame.value.0 == |old(abs).system.table.issued|
      ensures frame.Some? ==> Flatten(frame.value.1) == Endpoint.RequestBytes(frame.value.0 % SIZE_LIMIT, request)
    {
      hide Endpoint.RequestBytes, Step, O.Step, Reached, Told;
      if !alive {
        Orphan(call, context);
        return None;
      }
      var id, pieces := SendRequestImpl(call, context, request);
      frame := Some((id, pieces));
    }

    /** Tells one promise that its call failed. */
    method TellFailure(context: Context<A>, ghost s: O.System<A>, ghost u: O.System<A>, ghost k: nat,
                       reason: InvalidationReason)
      requires Linked() && Told(s) && Tells(s, u, k, Some(Failed(reason)))
      requires k < |contexts| && contexts[k] == context
      modifies context
      ensures Told(u) && context.outcome == Some(Failed(reason))
    {
      hide Expect;
      context.Invalidate(reason);
    }

    /** Tells one promise what its call was answered. */
    method TellAnswer(context: Context<A>, ghost s: O.System<A>, ghost u: O.System<A>, ghost k: nat, payload: Bytes)
      requires Linked() && Told(s) && Tells(s, u, k, Some(OutcomeOf(context.decode(payload))))
      requires k < |contexts| && contexts[k] == context
      modifies context
      ensures Told(u) && context.outcome == Some(OutcomeOf(context.decode(payload)))
    {
      hide Expect;
      context.OnResponseReceived(payload);
    }

    /** Cancels the timer of a pending request and takes it out of the table. */
    method Erase(requestId: nat, ghost outcome: Outcome<A>)
      requires Linked() && requestId in pendingRequests
      modifies this`pendingRequests, this`timers, this`abs
      ensures Linked() && pendingRequests == old(pendingRequests) - {requestId}
      ensures abs == old(abs).(
        system := old(abs).system.(table := Resolve(old(abs).system.table, requestId, outcome)),
        timers := old(abs).timers - {requestId})
    {
      timers := timers - {requestId};
      pendingRequests := pendingRequests - {requestId};
      abs := abs.(system := abs.system.(table := Resolve(abs.system.table, requestId, outcome)),
                  timers := abs.timers - {requestId});
    }

    /** Cancels the timer, tells the context and forgets the request, if it is pending. */
    method InvalidatePendingRequest(requestId: nat, reason: InvalidationReason)
      requires Linked() && Told(abs.system) && Facts(abs.system) && timers.Keys == pendingRequests.Keys
      modifies this`pendingRequests, this`timers, this`abs, Concerned(requestId)
      ensures Linked() && Told(abs.system) && pendingRequests == old(pendingRequests) - {requestId}
      ensures requestId in old(pendingRequests) ==>
        old(pendingRequests)[requestId].outcome == Some(Failed(reason))
      ensures abs == old(abs).(
        system := old(abs).system.(table := Resolve(old(abs).system.table, requestId, Failed(reason))),
        timers := old(abs).timers - {requestId})
    {
      hide Facts, Told;
      if requestId in pendingRequests {
        FailPending(requestId, reason);
      } else {
        assert timers - {requestId} == timers;
      }
    }

    /** Tells the context of a pending request that it failed, and forgets the request. */
    method FailPending(requestId: nat, reason: InvalidationReason)
      requires Linked() && Told(abs.system) && Facts(abs.system) && requestId in pendingRequests
      modifies this`pendingRequests, this`timers, this`abs, pendingRequests[requestId]
      ensures Linked() && Told(abs.system) && pendingRequests == old(pendingRequests) - {requestId}
      ensures old(pendingRequests)[requestId].outcome == Some(Failed(reason))
      ensures abs == old(abs).(
        system := old(abs).system.(table := Resolve(old(abs).system.table, requestId, Failed(reason))),
        timers := old(abs).timers - {requestId})
    {
      hide Linked, Facts, Told, Tells, Resolve;
      PendingContext(requestId);
      ghost var s := abs.system;
      ResolveTells(s, requestId, Failed(reason));
      var context := pendingRequests[requestId];
      TellFailure(
        context, s, s.(table := Resolve(s.table, requestId, Failed(reason))), s.table.issued[requestId], reason);
      Erase(requestId, Failed(reason));
    }

    method OnResponseReceived(requestId: nat, payload: Bytes)
      requires Valid() && alive && socketOpen
      modifies this`pendingRequests, this`timers, this`abs, Concerned(requestId)
      ensures Valid()
      ensures requestId in old(pendingRequests) ==> var context := old(pendingRequests)[requestId];
        match context.decode(payload)
        case Some(value) => context.outcome == Some(Answer(value))
        case None => context.outcome == Some(Failed(BAD_RESPONSE_FRAME))
      ensures pendingRequests == old(pendingRequests) - {requestId}
      ensures requestId !in old(pendingRequests) ==> abs == old(abs)
      ensures requestId in old(pendingRequests) ==>
        abs == Step(old(abs), Happens(O.Response(requestId, old(pendingRequests)[requestId].decode(payload))),
                    responseTimeout)
    {
      if requestId !in pendingRequests {
        return;
      }
      StepFacts(abs, O.Response(requestId, pendingRequests[requestId].decode(payload)), responseTimeout);
      ResponseStep(abs, requestId, pendingRequests[requestId].decode(payload), responseTimeout);
      hide Reached, Facts, Told, Step, O.Step, Resolve;
      AnswerPending(requestId, payload);
    }

    /** Hands the payload to the context of a pending request, and forgets the request. */
    method AnswerPending(requestId: nat, payload: Bytes)
      requires Linked() && Told(abs.system) && Facts(abs.system) && requestId in pendingRequests
      modifies this`pendingRequests, this`timers, this`abs, pendingRequests[requestId]
      ensures Linked() && Told(abs.system) && pendingRequests == old(pendingRequests) - {requestId}
      ensures var context := old(pendingRequests)[requestId];
        context.outcome == Some(OutcomeOf(context.decode(payload)))
      ensures var outcome := OutcomeOf(old(pendingRequests)[requestId].decode(payload)); abs == old(abs).(
        system := old(abs).system.(table := Resolve(old(abs).system.table, requestId, outcome)),
        timers := old(abs).timers - {requestId})
    {
      hide Linked, Facts, Told, Tells, Resolve;
      PendingContext(requestId);
      var context := pendingRequests[requestId];
      ghost var s, outcome := abs.system, OutcomeOf(context.decode(payload));
      ResolveTells(s, requestId, outcome);
      TellAnswer(context, s, s.(table := Resolve(s.table, requestId, outcome)), s.table.issued[requestId], payload);
      Erase(requestId, outcome);
    }

    /** The timer of a request goes off, or one that was cancelled too late does. */
    method OnTimeout(requestId: nat)
      requires Valid() && alive && (requestId in timers ==> timers[requestId] <= now)
      modifies this`pendingRequests, this`timers, this`abs, Concerned(requestId)
      ensures Valid() && abs == Step(old(abs), Happens(O.Timeout(requestId)), responseTimeout)
      ensures requestId in old(pendingRequests) ==>
        old(pendingRequests)[requestId].outcome == Some(Failed(TIMEOUT))
      ensures pendingRequests == old(pendingRequests) - {requestId}
    {
      StepFacts(abs, O.Timeout(requestId), responseTimeout);
      hide Reached, Facts, Told, Resolve;
      InvalidatePendingRequest(requestId, TIMEOUT);
    }

    /** The artificial delay of a request is over; `write` is whether its frame goes to the socket. */
    method OnDelayOver(requestId: nat) returns (write: bool)
      requires Valid() && requestId in abs.system.delayed
      modifies this`pendingRequests, this`timers, this`abs, Concerned(requestId)
      ensures Valid() && abs == Step(old(abs), Happens(O.DelayOver(requestId)), responseTimeout)
      ensures write <==> alive && socketOpen
      ensures alive && !socketOpen && requestId in old(pendingRequests) ==>
        old(pendingRequests)[requestId].outcome == Some(Failed(PEER_DISCONNECTED))
      ensures pendingRequests ==
        if alive && !socketOpen then old(pendingRequests) - {requestId} else old(pendingRequests)
      ensures (!alive || socketOpen) && requestId in old(pendingRequests) ==>
        old(pendingRequests)[requestId].outcome == old(pendingRequests[requestId].outcome)
    {
      hide Reached, Facts, Told, Step, O.Step, Resolve;
      StepFacts(abs, O.DelayOver(requestId), responseTimeout);
      DelayStep(abs, requestId, responseTimeout);
      if alive && !socketOpen {
        GiveUp(requestId);
        return false;
      }
      ghost var u := Step(abs, Happens(O.DelayOver(requestId)), responseTimeout);
      NothingTold(abs.system, u.system);
      ToldSame(abs.system, u.system);
      write := alive;
      abs := u;
    }

    /** The delay is over and the socket is gone. */
    method GiveUp(requestId: nat)
      requires Valid() && alive && !socketOpen && requestId in abs.system.delayed
      modifies this`pendingRequests, this`timers, this`abs, Concerned(requestId)
      ensures Valid() && abs == Step(old(abs), Happens(O.DelayOver(requestId)), responseTimeout)
      ensures requestId in old(pendingRequests) ==>
        old(pendingRequests)[requestId].outcome == Some(Failed(PEER_DISCONNECTED))
      ensures pendingRequests == old(pendingRequests) - {requestId}
    {
      ghost var u := abs.system.(delayed := abs.system.delayed - {requestId});
      hide Reached, Facts, Told, Step, O.Step, Resolve;
      StepFacts(abs, O.DelayOver(requestId), responseTimeout);
      DelayStep(abs, requestId, responseTimeout);
      NothingTold(abs.system, u);
      ToldSame(abs.system, u);
      abs := abs.(system := u);
      InvalidatePendingRequest(requestId, PEER_DISCONNECTED);
    }

    /** Visits the table in any order, without changing it. */
    method InvalidateEach(reason: InvalidationReason)
      requires Linked() && Told(abs.system) && Facts(abs.system)
      modifies pendingRequests.Values
      ensures Told(abs.system.(table := ResolveAll(abs.system.table, reason)))
      ensures forall id :: id in pendingRequests ==> pendingRequests[id].outcome == Some(Failed(reason))
    {
      ghost var s := abs.system;
      ghost var done: set<nat> := {};
      FailNoneAndAll(s.table, reason);
      hide Expect, Facts, Told, Tells;
      var rest := pendingRequests.Keys;
      while rest != {}
        invariant done !! rest && done + rest == pendingRequests.Keys
        invariant Facts(s.(table := FailSome(s.table, done, reason)))
        invariant Told(s.(table := FailSome(s.table, done, reason)))
      {
        var id :| id in rest;
        ghost var t := s.(table := FailSome(s.table, done, reason));
        FailOneMore(s.table, done, id, reason);
        ResolveTells(t, id, Failed(reason));
        var context := pendingRequests[id];
        TellFailure(context, t, t.(table := Resolve(t.table, id, Failed(reason))), s.table.issued[id], reason);
        rest, done := rest - {id}, done + {id};
      }
      assert done == s.table.pending;
      forall id | id in pendingRequests ensures pendingRequests[id].outcome == Some(Failed(reason)) {
        PendingContext(id);
        ToldOutcome(s.(table := ResolveAll(s.table, reason)), id);
      }
    }

    /** The table is cleared only after every context has been told. */
    method InvalidateAllPendingRequests(reason: InvalidationReason)
      requires Linked() && Told(abs.system) && Facts(abs.system)
      modifies this`pendingRequests, this`timers, this`abs, pendingRequests.Values
      ensures Linked() && Told(abs.system)
      ensures abs == old(abs).(
        system := old(abs).system.(table := ResolveAll(old(abs).system.table, reason)), timers := map[])
      ensures pendingRequests == map[]
      ensures forall id :: id in old(pendingRequests) ==> old(pendingRequests)[id].outcome == Some(Failed(reason))
    {
      hide Expect, Facts, Told;
      InvalidateEach(reason);
      timers := map[];
      pendingRequests := map[];
      abs := abs.(system := abs.system.(table := ResolveAll(abs.system.table, reason)), timers := map[]);
    }

    /** The socket wrapper was invalidated and says so. */
    method OnSocketInvalidated()
      requires Valid() && alive && socketOpen
      modifies this`pendingRequests, this`timers, this`socketOpen, this`abs, pendingRequests.Values
      ensures Valid() && abs == Step(old(abs), Happens(O.SocketInvalidated), responseTimeout)
      ensures pendingRequests == map[]
      ensures forall id :: id in old(pendingRequests) ==>
        old(pendingRequests)[id].outcome == Some(Failed(PEER_DISCONNECTED))
    {
      ghost var u := abs.system.(socketOpen := false);
      hide Reached, Facts, Told, Step, O.Step, ResolveAll;
      StepFacts(abs, O.SocketInvalidated, responseTimeout);
      EndSteps(abs, responseTimeout);
      NothingTold(abs.system, u);
      ToldSame(abs.system, u);
      socketOpen := false;
      abs := abs.(system := u);
      InvalidateAllPendingRequests(PEER_DISCONNECTED);
    }

    /** The destructor. */
    method Destroy()
      requires Valid() && alive
      modifies this`pendingRequests, this`timers, this`alive, this`abs, pendingRequests.Values
      ensures Valid() && abs == Step(old(abs), Happens(O.Destroyed), responseTimeout)
      ensures pendingRequests == map[]
      ensures forall id :: id in old(pendingRequests) ==>
        old(pendingRequests)[id].outcome == Some(Failed(PEER_DISCONNECTED))
    {
      ghost var u := abs.system.(alive := false);
      hide Reached, Facts, Told, Step, O.Step, ResolveAll;
      StepFacts(abs, O.Destroyed, responseTimeout);
      EndSteps(abs, responseTimeout);
      NothingTold(abs.system, u);
      ToldSame(abs.system, u);
      alive := false;
      abs := abs.(system := u);
      InvalidateAllPendingRequests(PEER_DISCONNECTED);
    }

    /** Time passes, but not past the time a timer is due. */
    method Elapse(time: nat)
      requires Valid() && forall id :: id in timers ==> now + time <= timers[id]
      modifies this`now, this`abs
      ensures Valid() && abs == Step(old(abs), Elapses(time), responseTimeout)
    {
      StepReached(abs, Elapses(time), responseTimeout);
      hide Reached, Told;
      now := now + time;
      abs := Step(abs, Elapses(time), responseTimeout);
    }
  }
}
