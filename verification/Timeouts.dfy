/**
 The manager of outgoing requests with its clock: each request arms a timer, and whatever
 resolves the request first cancels it.
 */
module Timeouts {
  import O = OutgoingRequests

  /** `issuedAt` is when each request got its id, `timers` the armed timers and when they are due. */
  datatype Clocked<A> = Clocked(system: O.System<A>, issuedAt: seq<nat>, timers: map<nat, nat>, now: nat)

  datatype Event<A> = Happens(event: O.Event<A>) | Elapses(time: nat)

  /** Timers fire when due: none goes off early, and time does not pass one by. */
  ghost predicate Enabled<A>(c: Clocked<A>, e: Event<A>) {
    match e
    case Happens(event) =>
      && O.Enabled(c.system, event)
      && (event.Timeout? && event.id in c.timers ==> c.timers[event.id] <= c.now)
    case Elapses(time) => forall id {:trigger c.timers[id]} :: id in c.timers ==> c.now + time <= c.timers[id]
  }

  /** The timers after a step: armed with the request's id, cancelled where it is resolved. */
  function Timers<A>(c: Clocked<A>, event: O.Event<A>, responseTimeout: nat): map<nat, nat> {
    match event
    case Send => c.timers
    case RunPosted(_) =>
      if c.system.alive then c.timers[|c.system.table.issued| := c.now + responseTimeout] else c.timers
    case DelayOver(id) => if c.system.alive && !c.system.socketOpen then c.timers - {id} else c.timers
    case Response(id, _) => c.timers - {id}
    case Timeout(id) => c.timers - {id}
    case SocketInvalidated => map[]
    case Destroyed => map[]
  }

  function Step<A>(c: Clocked<A>, e: Event<A>, responseTimeout: nat): Clocked<A>
    requires Enabled(c, e)
  {
    match e
    case Happens(event) =>
      var system := O.Step(c.system, event);
      Clocked(system,
        if |system.table.issued| > |c.system.table.issued| then c.issuedAt + [c.now] else c.issuedAt,
        Timers(c, event, responseTimeout), c.now)
    case Elapses(time) => c.(now := c.now + time)
  }

  ghost predicate Run<A>(c: Clocked<A>, es: seq<Event<A>>, responseTimeout: nat, u: Clocked<A>)
    decreases |es|
  {
    if es == [] then c == u else Enabled(c, es[0]) && Run(Step(c, es[0], responseTimeout), es[1..], responseTimeout, u)
  }

  /** Exactly the pending requests have a timer, and none is overdue. */
  ghost predicate Timely<A>(c: Clocked<A>, responseTimeout: nat) {
    && |c.issuedAt| == |c.system.table.issued|
    && c.timers.Keys == c.system.table.pending
    && (forall id {:trigger c.timers[id]} :: id in c.timers ==>
          id < |c.issuedAt| && c.now <= c.timers[id] == c.issuedAt[id] + responseTimeout)
  }

  lemma {:induction false} StepTimely<A>(c: Clocked<A>, e: Event<A>, responseTimeout: nat)
    requires Timely(c, responseTimeout) && Enabled(c, e)
    ensures Timely(Step(c, e, responseTimeout), responseTimeout)
  {
    var u := Step(c, e, responseTimeout);
    if e.Happens? {
      match e.event {
        case RunPosted(_) =>
          if c.system.alive {
            assert |u.system.table.issued| == |c.system.table.issued| + 1;
          }
        case _ => assert u.system.table.issued == c.system.table.issued;
      }
      assert u.timers.Keys == u.system.table.pending;
    }
  }

  lemma {:induction false} RunTimely<A>(c: Clocked<A>, es: seq<Event<A>>, responseTimeout: nat, u: Clocked<A>)
    requires Timely(c, responseTimeout) && Run(c, es, responseTimeout, u)
    ensures Timely(u, responseTimeout)
    decreases |es|
  {
    if es != [] {
      hide Timely, Step, Enabled;
      StepTimely(c, es[0], responseTimeout);
      RunTimely(Step(c, es[0], responseTimeout), es[1..], responseTimeout, u);
    }
  }

  function Initial<A>(): Clocked<A> {
    Clocked(O.Initial(), [], map[], 0)
  }

  lemma InitialTimely<A>(responseTimeout: nat)
    ensures Timely(Initial<A>(), responseTimeout)
  {
  }

  /**
   In every run in which timers fire as they fall due, exactly the pending requests have a
   timer, and no request is still pending when more than the response timeout has passed
   since it was issued.
   */
  lemma {:induction false} NobodyWaitsTooLong<A>(es: seq<Event<A>>, responseTimeout: nat, u: Clocked<A>)
    requires Run(Initial<A>(), es, responseTimeout, u)
    ensures u.timers.Keys == u.system.table.pending && |u.issuedAt| == |u.system.table.issued|
    ensures forall id :: id in u.system.table.pending ==>
      id < |u.issuedAt| && u.now <= u.issuedAt[id] + responseTimeout
  {
    hide Run;
    InitialTimely<A>(responseTimeout);
    RunTimely(Initial<A>(), es, responseTimeout, u);
    assert forall id :: id in u.system.table.pending ==> id in u.timers;
  }

  /** A state of some run from the start. */
  ghost predicate Reached<A(!new)>(c: Clocked<A>, responseTimeout: nat) {
    exists es :: Run(Initial<A>(), es, responseTimeout, c)
  }

  lemma InitialReached<A(!new)>(responseTimeout: nat)
    ensures Reached(Initial<A>(), responseTimeout)
  {
    assert Run(Initial<A>(), [], responseTimeout, Initial<A>());
  }

  lemma {:induction false} RunSnoc<A>(
      c: Clocked<A>, es: seq<Event<A>>, responseTimeout: nat, u: Clocked<A>, e: Event<A>)
    requires Run(c, es, responseTimeout, u) && Enabled(u, e)
    ensures Run(c, es + [e], responseTimeout, Step(u, e, responseTimeout))
    decreases |es|
  {
    hide Step, Enabled;
    if es == [] {
      assert [e][1..] == [];
    } else {
      RunSnoc(Step(c, es[0], responseTimeout), es[1..], responseTimeout, u, e);
      assert (es + [e])[1..] == es[1..] + [e];
    }
  }

  lemma StepReached<A(!new)>(c: Clocked<A>, e: Event<A>, responseTimeout: nat)
    requires Reached(c, responseTimeout) && Enabled(c, e)
    ensures Reached(Step(c, e, responseTimeout), responseTimeout)
  {
    hide Step, Enabled, Run;
    var es :| Run(Initial<A>(), es, responseTimeout, c);
    RunSnoc(Initial<A>(), es, responseTimeout, c, e);
  }

  /** The steps of a clocked run, without the clock, are a run. */
  lemma {:induction false} RunsWithoutClock<A>(c: Clocked<A>, es: seq<Event<A>>, responseTimeout: nat, u: Clocked<A>)
    returns (os: seq<O.Event<A>>)
    requires Run(c, es, responseTimeout, u)
    ensures O.Run(c.system, os, u.system)
    decreases |es|
  {
    if es == [] {
      os := [];
    } else {
      hide O.Step, O.Enabled, Timers;
      var d := Step(c, es[0], responseTimeout);
      os := RunsWithoutClock(d, es[1..], responseTimeout, u);
      if es[0].Happens? {
        var rest := os;
        os := [es[0].event] + rest;
        assert os[1..] == rest;
      }
    }
  }

  lemma {:induction false} ReachedIsSound<A(!new)>(c: Clocked<A>, responseTimeout: nat)
    requires Reached(c, responseTimeout)
    ensures O.Accounted(c.system) && Timely(c, responseTimeout)
  {
    hide Run, O.Run, O.Accounted, Timely;
    var es :| Run(Initial<A>(), es, responseTimeout, c);
    InitialTimely<A>(responseTimeout);
    RunTimely(Initial<A>(), es, responseTimeout, c);
    var os := RunsWithoutClock(Initial<A>(), es, responseTimeout, c);
    O.InitialAccounted<A>();
    O.RunAccounted(O.Initial<A>(), os, c.system);
  }
}
