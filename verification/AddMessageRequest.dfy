/**
 The state machine that replicates one message: rounds of queries to the secondaries of a
 registry snapshot, a wait between rounds, and a promise that is filled once.
 */
module AddMessageRequest {
  import opened Wrappers

  datatype Status = ADDED | NOT_ADDED | ERROR

  /** A secondary's answer, or the error its future carries. */
  datatype Reply = OK | NOT_ALLOWED | FAILED

  datatype Promise = Unfilled | Fulfilled | Broken

  /** How a request came to its end: every secondary answered, or there is no master any more. */
  datatype End = Live | Answered | MasterGone

  /** What the request knew when it marked success (history only). */
  datatype Confirmation = Confirmation(ids: set<nat>, among: set<nat>)

  /**
   `outstanding` and `timer` stand for the callbacks the io context still holds for this
   request: one per queried secondary, and the one of the wait timer.
   */
  datatype Request = Request(
    writeConcern: nat,
    started: bool,
    pendingWrites: nat,
    snapshot: set<nat>,
    statuses: map<nat, Status>,
    promise: Promise,
    outstanding: set<nat>,
    timer: bool,
    end: End,
    confirmed: Option<Confirmation>)

  function New(writeConcern: nat): Request {
    Request(writeConcern, false, 0, {}, map[], Unfilled, {}, false, Live, None)
  }

  function StatusOf(reply: Reply): Status {
    match reply
    case OK => ADDED
    case NOT_ALLOWED => NOT_ADDED
    case FAILED => ERROR
  }

  function Having(statuses: map<nat, Status>, st: Status): set<nat> {
    set id | id in statuses && statuses[id] == st
  }

  function NotHaving(statuses: map<nat, Status>, st: Status): set<nat> {
    set id | id in statuses && statuses[id] != st
  }

  /** The secondaries a round has to ask: no status, or an error. */
  function ToQuery(snapshot: set<nat>, statuses: map<nat, Status>): set<nat> {
    snapshot - NotHaving(statuses, ERROR)
  }

  function MarkSuccess(r: Request): Request {
    if r.promise != Unfilled then r
    else r.(promise := Fulfilled, confirmed := Some(Confirmation(Having(r.statuses, ADDED), r.snapshot)))
  }

  function MarkFailure(r: Request): Request {
    if r.promise != Unfilled then r else r.(promise := Broken)
  }

  /** The new snapshot, without the statuses of secondaries that left. */
  function UpdateData(r: Request, snapshot: set<nat>): Request {
    r.(snapshot := snapshot, statuses := map id | id in r.statuses && id in snapshot :: r.statuses[id])
  }

  /** Also the set of secondaries that are asked. */
  function SendRequests(r: Request): (Request, set<nat>) {
    if r.pendingWrites > 0 then (r, {})
    else
      var targets := ToQuery(r.snapshot, r.statuses);
      (r.(pendingWrites := |targets|, outstanding := targets, timer := targets == {}), targets)
  }

  /** Success as soon as the concern is met, the end only when everybody has answered. */
  function Decide(r: Request): (Request, set<nat>) {
    if |Having(r.statuses, ADDED)| >= r.writeConcern then
      var r := MarkSuccess(r);
      if |NotHaving(r.statuses, ERROR)| == |r.snapshot| then (r.(end := Answered), {})
      else SendRequests(r)
    else SendRequests(r)
  }

  /** `snapshot` is absent when the master no longer exists. */
  function Start(r: Request, snapshot: Option<set<nat>>): (Request, set<nat>) {
    var r := r.(started := true, timer := false);
    if snapshot.None? then
      (MarkFailure(r).(end := MasterGone), {})
    else Decide(UpdateData(r, snapshot.value))
  }

  function RecordReply(r: Request, id: nat, reply: Reply): Request {
    var r := r.(statuses := r.statuses[id := StatusOf(reply)]);
    if |Having(r.statuses, ADDED)| >= r.writeConcern then MarkSuccess(r) else r
  }

  /** The request between recording the reply of `id` and looking whether the round is over. */
  function AfterReply(r: Request, id: nat, reply: Reply): Request
    requires r.pendingWrites > 0
  {
    var q := RecordReply(r, id, reply);
    q.(pendingWrites := q.pendingWrites - 1, outstanding := q.outstanding - {id})
  }

  /** The whole callback of one queried secondary, up to the start of the next round. */
  function OnReply(r: Request, id: nat, reply: Reply, snapshot: Option<set<nat>>): (Request, set<nat>)
    requires r.pendingWrites > 0
  {
    var r := AfterReply(r, id, reply);
    if r.pendingWrites == 0 then Start(r, snapshot) else (r, {})
  }

  // ---- the life cycle ----

  ghost predicate AllAnswered(r: Request) {
    forall id {:trigger id in r.statuses} {:trigger id in r.snapshot} ::
      id in r.snapshot ==> id in r.statuses && r.statuses[id] != ERROR
  }

  ghost predicate RoundInFlight(r: Request) { r.outstanding != {} && r.pendingWrites > 0 }
  ghost predicate TimerWaiting(r: Request) { r.timer }
  ghost predicate Finished(r: Request) { r.end != Live }

  /** Exactly one of the three. */
  ghost predicate OnePhase(r: Request) {
    && (RoundInFlight(r) || TimerWaiting(r) || Finished(r))
    && !(RoundInFlight(r) && TimerWaiting(r))
    && !(RoundInFlight(r) && Finished(r))
    && !(TimerWaiting(r) && Finished(r))
  }

  ghost predicate Valid(r: Request) {
    && r.statuses.Keys <= r.snapshot
    && r.outstanding <= r.snapshot
    && r.pendingWrites == |r.outstanding|
    && (forall id {:trigger id in r.outstanding} ::
          id in r.outstanding && id in r.statuses ==> r.statuses[id] == ERROR)
    && (r.started ==> OnePhase(r))
    && (!r.started ==> r == New(r.writeConcern))
    && (r.timer ==> AllAnswered(r) && |Having(r.statuses, ADDED)| < r.writeConcern)
    && (r.end == Answered ==>
          r.promise == Fulfilled && AllAnswered(r) && |Having(r.statuses, ADDED)| >= r.writeConcern)
    && (r.end == MasterGone ==> r.promise != Unfilled)
    && (r.promise == Broken ==> r.end == MasterGone)
    && (r.promise == Fulfilled <==> r.confirmed.Some?)
    && (r.confirmed.Some? ==>
          && r.confirmed.value.ids <= r.confirmed.value.among
          && |r.confirmed.value.ids| >= r.writeConcern)
    && (r.started && r.promise == Unfilled ==> |Having(r.statuses, ADDED)| < r.writeConcern)
  }

  lemma {:induction false} EqualSizes(a: set<nat>, b: set<nat>)
    requires a <= b
    ensures |a| <= |b|
    ensures |a| == |b| ==> a == b
  {
    assert b == a + (b - a);
  }

  /**
   Comparing the number of non-error statuses with the size of the snapshot decides whether
   every secondary of the snapshot has answered, because no status outlives its secondary.
   */
  lemma {:induction false} CountingIsPointwise(r: Request)
    requires r.statuses.Keys <= r.snapshot
    ensures |NotHaving(r.statuses, ERROR)| == |r.snapshot| <==> AllAnswered(r)
    ensures AllAnswered(r) <==> ToQuery(r.snapshot, r.statuses) == {}
  {
    EqualSizes(NotHaving(r.statuses, ERROR), r.snapshot);
    if AllAnswered(r) {
      assert NotHaving(r.statuses, ERROR) == r.snapshot;
    }
    if ToQuery(r.snapshot, r.statuses) == {} {
      forall id | id in r.snapshot ensures id in r.statuses && r.statuses[id] != ERROR {
        assert id !in ToQuery(r.snapshot, r.statuses);
        assert id in NotHaving(r.statuses, ERROR);
      }
    }
  }

  lemma {:induction false} MarkSuccessKeeps(r: Request)
    requires |Having(r.statuses, ADDED)| >= r.writeConcern && r.statuses.Keys <= r.snapshot
    requires r.promise == Fulfilled <==> r.confirmed.Some?
    requires r.confirmed.Some? ==>
      r.confirmed.value.ids <= r.confirmed.value.among && |r.confirmed.value.ids| >= r.writeConcern
    ensures var q := MarkSuccess(r);
      && q.promise != Unfilled
      && (q.promise == Fulfilled <==> q.confirmed.Some?)
      && (q.confirmed.Some? ==>
            q.confirmed.value.ids <= q.confirmed.value.among && |q.confirmed.value.ids| >= q.writeConcern)
  {
  }

  /** What `Start` relies on: it holds of a new request, when the timer fires, and after the last reply of a round. */
  ghost predicate Settled(r: Request) {
    && r.statuses.Keys <= r.snapshot
    && r.promise != Broken
    && (r.promise == Fulfilled <==> r.confirmed.Some?)
    && (r.confirmed.Some? ==>
          r.confirmed.value.ids <= r.confirmed.value.among && |r.confirmed.value.ids| >= r.writeConcern)
  }

  /** A new request, and one whose timer fires, has no callback left and may start a round. */
  lemma {:induction false} ReadyToStart(r: Request)
    requires Valid(r) && (!r.started || r.timer)
    ensures Settled(r) && r.end == Live && r.outstanding == {} && r.pendingWrites == 0
  {
  }

  /**
   `Start` is only entered with no callback left, and then leaves a valid state in which the
   request has ended, waits, or has exactly one callback per unanswered secondary.
   */
  lemma {:induction false} StartKeepsValid(r: Request, snapshot: Option<set<nat>>)
    requires Settled(r) && r.end == Live && r.outstanding == {} && r.pendingWrites == 0
    ensures var (q, targets) := Start(r, snapshot); Valid(q) && q.started && targets == q.outstanding
    ensures var (q, targets) := Start(r, snapshot);
      snapshot.Some? ==> q.snapshot == snapshot.value && targets <= snapshot.value
  {
    var r1 := r.(started := true, timer := false);
    if snapshot.Some? {
      var r2 := UpdateData(r1, snapshot.value);
      CountingIsPointwise(r2);
      assert Having(r2.statuses, ADDED) <= Having(r1.statuses, ADDED);
      EqualSizes(Having(r2.statuses, ADDED), Having(r1.statuses, ADDED));
      CountingIsPointwise(MarkSuccess(r2));
    }
  }

  lemma {:induction false} AfterReplySettles(r: Request, id: nat, reply: Reply)
    requires Valid(r) && id in r.outstanding
    ensures r.pendingWrites > 0
    ensures var q := AfterReply(r, id, reply);
      && q.outstanding == r.outstanding - {id} && q.pendingWrites == |q.outstanding|
      && q.end == Live && q.started && !q.timer && q.snapshot == r.snapshot
      && Settled(q)
      && (q.pendingWrites == 0 <==> r.outstanding == {id})
      && (q.pendingWrites != 0 ==> Valid(q))
  {
    assert r.outstanding == r.outstanding - {id} + {id};
    assert |r.outstanding| == |r.outstanding - {id}| + 1;
    var r1 := r.(statuses := r.statuses[id := StatusOf(reply)]);
    if |Having(r1.statuses, ADDED)| >= r1.writeConcern {
      MarkSuccessKeeps(r1);
    }
  }

  /** The reply of an outstanding secondary keeps the request valid, whatever the reply says. */
  lemma {:induction false} OnReplyKeepsValid(r: Request, id: nat, reply: Reply, snapshot: Option<set<nat>>)
    requires Valid(r) && id in r.outstanding
    ensures r.pendingWrites > 0
    ensures var (q, targets) := OnReply(r, id, reply, snapshot);
      Valid(q) && q.started &&
      (r.outstanding != {id} ==> q.outstanding == r.outstanding - {id} && targets == {} && q.snapshot == r.snapshot)
    ensures var (q, targets) := OnReply(r, id, reply, snapshot);
      r.outstanding == {id} ==> targets == q.outstanding && (snapshot.Some? ==> q.snapshot == snapshot.value)
  {
    hide Start, Valid, Settled, RecordReply;
    AfterReplySettles(r, id, reply);
    var q := AfterReply(r, id, reply);
    if q.pendingWrites == 0 {
      assert q.outstanding == {};
      StartKeepsValid(q, snapshot);
    }
  }

  /** `q` knows of no success that `statuses` does not show, except what `r` had confirmed before. */
  ghost predicate Grounded(r: Request, q: Request, statuses: map<nat, Status>) {
    && (forall id {:trigger q.statuses[id]} {:trigger id in q.statuses} ::
          id in q.statuses ==> id in statuses && q.statuses[id] == statuses[id])
    && (q.confirmed == r.confirmed || (q.confirmed.Some? && q.confirmed.value.ids <= Having(statuses, ADDED)))
  }

  lemma {:induction false} StartIsGrounded(r: Request, snapshot: Option<set<nat>>)
    ensures Grounded(r, Start(r, snapshot).0, r.statuses)
  {
    hide NotHaving, ToQuery;
  }

  lemma {:induction false} OnReplyIsGrounded(r: Request, id: nat, reply: Reply, snapshot: Option<set<nat>>)
    requires r.pendingWrites > 0
    ensures Grounded(r, OnReply(r, id, reply, snapshot).0, r.statuses[id := StatusOf(reply)])
  {
    hide Start, NotHaving, ToQuery;
    StartIsGrounded(AfterReply(r, id, reply), snapshot);
  }

  /** `q` keeps the write concern, and every snapshot it refers to is an old one or `members`. */
  ghost predicate Remembers(r: Request, q: Request, members: Option<set<nat>>) {
    && q.writeConcern == r.writeConcern
    && (q.snapshot == r.snapshot || Some(q.snapshot) == members)
    && (q.confirmed == r.confirmed ||
        (q.confirmed.Some? && (q.confirmed.value.among == r.snapshot || Some(q.confirmed.value.among) == members)))
  }

  lemma {:induction false} StartRemembers(r: Request, members: Option<set<nat>>)
    ensures Remembers(r, Start(r, members).0, members)
    ensures members.Some? ==> Start(r, members).0.snapshot == members.value
    ensures Start(r, members).0.confirmed == r.confirmed || (members.Some? && Start(r, members).0.confirmed.Some?
              && Start(r, members).0.confirmed.value.among == members.value)
  {
    hide Having, NotHaving, ToQuery;
  }

  lemma {:induction false} OnReplyRemembers(r: Request, id: nat, reply: Reply, members: Option<set<nat>>)
    requires r.pendingWrites > 0
    ensures Remembers(r, OnReply(r, id, reply, members).0, members)
  {
    hide Start, Having, NotHaving, ToQuery;
    StartRemembers(AfterReply(r, id, reply), members);
  }

  lemma {:induction false} StartWithMaster(r: Request, members: set<nat>)
    requires r.end != MasterGone
    ensures Start(r, Some(members)).0.end != MasterGone
  {
    hide Having, NotHaving, ToQuery;
  }

  lemma {:induction false} OnReplyWithMaster(r: Request, id: nat, reply: Reply, members: set<nat>)
    requires r.end != MasterGone && r.pendingWrites > 0
    ensures OnReply(r, id, reply, Some(members)).0.end != MasterGone
  {
    hide Start, Having, NotHaving, ToQuery;
    StartWithMaster(AfterReply(r, id, reply), members);
  }

  // ---- what a round start and a reply decide, secondary by secondary ----

  /** `id` has no answer but an error yet. */
  ghost predicate Owes(statuses: map<nat, Status>, id: nat) {
    id in statuses ==> statuses[id] == ERROR
  }

  ghost predicate AllOf(members: set<nat>, statuses: map<nat, Status>) {
    forall id {:trigger id in members} :: id in members ==> !Owes(statuses, id)
  }

  /** Enough of `members` have added the message. */
  ghost predicate Enough(members: set<nat>, statuses: map<nat, Status>, writeConcern: nat) {
    |set id | id in members && id in statuses && statuses[id] == ADDED| >= writeConcern
  }

  /**
   `q` is what a round makes of `statuses` when the registry shows `members`: it asks exactly
   the members that owe an answer, and has ended or waits exactly when there are none.
   */
  ghost predicate RoundOf(q: Request, members: set<nat>, statuses: map<nat, Status>, told: bool) {
    && q.started && q.snapshot == members
    && (forall id {:trigger id in q.statuses} :: id in q.statuses <==> id in statuses && id in members)
    && (forall id {:trigger q.statuses[id]} :: id in q.statuses ==> q.statuses[id] == statuses[id])
    && (forall id {:trigger id in q.outstanding} :: id in q.outstanding <==> id in members && Owes(statuses, id))
    && q.pendingWrites == |q.outstanding|
    && (q.promise == Fulfilled <==> told || Enough(members, statuses, q.writeConcern))
    && q.promise != Broken
    && (q.end == Answered <==> AllOf(members, statuses) && Enough(members, statuses, q.writeConcern))
    && (q.timer <==> AllOf(members, statuses) && !Enough(members, statuses, q.writeConcern))
    && q.end != MasterGone
  }

  lemma {:induction false} UpdatedCounts(r: Request, members: set<nat>)
    ensures |Having(UpdateData(r, members).statuses, ADDED)| >= r.writeConcern <==>
            Enough(members, r.statuses, r.writeConcern)
    ensures forall id: nat ::
      id in ToQuery(members, UpdateData(r, members).statuses) <==> id in members && Owes(r.statuses, id)
    ensures ToQuery(members, UpdateData(r, members).statuses) == {} <==> AllOf(members, r.statuses)
  {
    var u := UpdateData(r, members);
    assert Having(u.statuses, ADDED) == set id | id in members && id in r.statuses && r.statuses[id] == ADDED;
    forall id: nat ensures id in ToQuery(members, u.statuses) <==> id in members && Owes(r.statuses, id) {
      assert id in NotHaving(u.statuses, ERROR) <==> id in u.statuses && u.statuses[id] != ERROR;
    }
    if ToQuery(members, u.statuses) == {} {
      forall id | id in members ensures !Owes(r.statuses, id) {
        assert id !in ToQuery(members, u.statuses);
      }
    }
  }

  /** The decision of a round start, in counts. */
  lemma {:induction false} DecideAsks(r: Request)
    requires r.statuses.Keys <= r.snapshot && r.end == Live && r.outstanding == {} && r.pendingWrites == 0
    requires r.promise != Broken && r.started && !r.timer
    ensures var (q, targets) := Decide(r);
      var enough, rest := |Having(r.statuses, ADDED)| >= r.writeConcern, ToQuery(r.snapshot, r.statuses);
      && q.started && q.snapshot == r.snapshot && q.statuses == r.statuses && q.writeConcern == r.writeConcern
      && targets == q.outstanding == rest && q.pendingWrites == |rest|
      && q.promise == (if enough then Fulfilled else r.promise)
      && q.end == (if enough && rest == {} then Answered else Live)
      && (q.timer <==> !enough && rest == {})
  {
    CountingIsPointwise(r);
    hide Having, NotHaving, ToQuery, AllAnswered;
  }

  /** A start asks exactly those who owe an answer; without a master it only breaks its promise. */
  lemma {:induction false} StartAsks(r: Request, members: set<nat>)
    requires Settled(r) && r.end == Live && r.outstanding == {} && r.pendingWrites == 0
    ensures RoundOf(Start(r, Some(members)).0, members, r.statuses, r.promise == Fulfilled)
    ensures Start(r, Some(members)).0.writeConcern == r.writeConcern
    ensures Start(r, Some(members)).1 == Start(r, Some(members)).0.outstanding
    ensures var (q, targets) := Start(r, None);
      targets == {} && q.end == MasterGone && q.promise == (if r.promise == Fulfilled then Fulfilled else Broken)
  {
    hide Decide, AllOf, Enough, Owes, Having, ToQuery;
    var r1 := r.(started := true, timer := false);
    UpdatedCounts(r1, members);
    DecideAsks(UpdateData(r1, members));
  }

  /** What is known of the secondaries once `reply` of `id` is recorded. */
  ghost predicate Heard(statuses: map<nat, Status>, id: nat, reply: Reply, known: map<nat, Status>) {
    && known.Keys == statuses.Keys + {id}
    && (forall k {:trigger known[k]} :: k in statuses && k != id ==> known[k] == statuses[k])
    && (known[id] == ADDED <==> reply == OK)
    && (known[id] == NOT_ADDED <==> reply == NOT_ALLOWED)
  }

  lemma {:induction false} RecordsReply(r: Request, id: nat, reply: Reply)
    requires Valid(r) && id in r.outstanding && r.pendingWrites > 0
    ensures var q := AfterReply(r, id, reply);
      && Heard(r.statuses, id, reply, q.statuses)
      && q.writeConcern == r.writeConcern && q.promise != Broken
      && (q.promise == Fulfilled <==> r.promise == Fulfilled || Enough(r.snapshot, q.statuses, r.writeConcern))
  {
    var known := r.statuses[id := StatusOf(reply)];
    EnoughKnown(r.snapshot, known, r.writeConcern);
    hide Having, Enough, OnePhase, AllAnswered;
    assert AfterReply(r, id, reply).statuses == known;
  }

  lemma EnoughKnown(members: set<nat>, known: map<nat, Status>, writeConcern: nat)
    requires known.Keys <= members
    ensures Enough(members, known, writeConcern) <==> |Having(known, ADDED)| >= writeConcern
  {
    assert Having(known, ADDED) == set k | k in members && k in known && known[k] == ADDED;
  }

  /**
   A reply is recorded as what it was.  While others of the round are outstanding nothing else
   happens, except that the caller is told as soon as the concern is met; the last one starts
   the next round.
   */
  lemma {:induction false} ReplyAsks(r: Request, id: nat, reply: Reply, members: set<nat>)
    returns (known: map<nat, Status>)
    requires Valid(r) && id in r.outstanding
    ensures r.pendingWrites > 0 && Heard(r.statuses, id, reply, known)
    ensures var (q, targets) := OnReply(r, id, reply, Some(members));
      q.writeConcern == r.writeConcern &&
      if r.outstanding == {id} then
        && targets == q.outstanding
        && RoundOf(q, members, known, r.promise == Fulfilled || Enough(r.snapshot, known, r.writeConcern))
      else
        && targets == {} && q.started && q.snapshot == r.snapshot && q.statuses == known
        && q.outstanding == r.outstanding - {id} && !q.timer && q.end == Live
        && (q.promise == Fulfilled <==> r.promise == Fulfilled || Enough(r.snapshot, known, r.writeConcern))
  {
    hide Start, Valid, Settled, AfterReply, RoundOf, Heard, Enough;
    AfterReplySettles(r, id, reply);
    RecordsReply(r, id, reply);
    known := AfterReply(r, id, reply).statuses;
    if r.outstanding == {id} {
      StartAsks(AfterReply(r, id, reply), members);
    }
  }

  // ---- progress with an unchanged registry ----

  datatype Event = Starting | Replying(id: nat, reply: Reply)

  /** One callback of the request while the registry keeps showing `members`. */
  ghost predicate CanHappen(r: Request, e: Event) {
    match e
    case Starting => !r.started || r.timer
    case Replying(id, _) => id in r.outstanding
  }

  function Happen(r: Request, e: Event, members: set<nat>): Request
    requires Valid(r) && CanHappen(r, e)
  {
    match e
    case Starting => Start(r, Some(members)).0
    case Replying(id, reply) => OutstandingIsCounted(r, id); OnReply(r, id, reply, Some(members)).0
  }

  lemma OutstandingIsCounted(r: Request, id: nat)
    requires Valid(r) && id in r.outstanding
    ensures r.pendingWrites > 0
  {
    assert r.outstanding == r.outstanding - {id} + {id};
  }

  ghost predicate History(r: Request, es: seq<Event>, members: set<nat>)
    decreases |es|
  {
    es == [] || (Valid(r) && CanHappen(r, es[0]) && History(Happen(r, es[0], members), es[1..], members))
  }

  /** The secondaries among `members` that still owe an answer. */
  ghost function Unanswered(r: Request, members: set<nat>): set<nat> {
    ToQuery(members, r.statuses)
  }

  function Answers(es: seq<Event>): nat {
    if es == [] then 0
    else (if es[0].Replying? && es[0].reply != FAILED then 1 else 0) + Answers(es[1..])
  }

  lemma {:induction false} StatusesAfterStart(r: Request, members: set<nat>)
    ensures var q := Start(r, Some(members)).0;
      q.snapshot == members && q.statuses == map id | id in r.statuses && id in members :: r.statuses[id]
  {
    hide Having, NotHaving, ToQuery;
  }

  lemma {:induction false} StatusesAfterReply(r: Request, id: nat, reply: Reply, members: set<nat>)
    requires r.pendingWrites > 0 && r.statuses.Keys <= members && id in members
    ensures OnReply(r, id, reply, Some(members)).0.statuses == r.statuses[id := StatusOf(reply)]
  {
    var q := AfterReply(r, id, reply);
    assert q.statuses == r.statuses[id := StatusOf(reply)];
    StatusesAfterStart(q, members);
  }

  lemma {:induction false} UnansweredAfterReply(statuses: map<nat, Status>, id: nat, reply: Reply, members: set<nat>)
    requires id in members && (id in statuses ==> statuses[id] == ERROR)
    ensures id in ToQuery(members, statuses)
    ensures ToQuery(members, statuses[id := StatusOf(reply)]) ==
            if reply == FAILED then ToQuery(members, statuses) else ToQuery(members, statuses) - {id}
  {
    assert NotHaving(statuses[id := StatusOf(reply)], ERROR) ==
           if reply == FAILED then NotHaving(statuses, ERROR) else NotHaving(statuses, ERROR) + {id};
  }

  /** Nobody who has answered is asked again, and no status falls back to an error. */
  lemma {:induction false} HappenShrinks(r: Request, e: Event, members: set<nat>)
    requires Valid(r) && CanHappen(r, e)
    requires r.snapshot == members || r == New(r.writeConcern)
    ensures var q := Happen(r, e, members);
      && Valid(q) && q.snapshot == members
      && q.outstanding <= Unanswered(q, members)
    ensures e.Replying? ==> e.id in Unanswered(r, members)
    ensures Unanswered(Happen(r, e, members), members) ==
            if e.Replying? && e.reply != FAILED then Unanswered(r, members) - {e.id} else Unanswered(r, members)
  {
    hide Start, OnReply;
    match e {
      case Starting =>
        StartKeepsValid(r, Some(members));
        StatusesAfterStart(r, members);
        var q := Happen(r, e, members);
        assert q.statuses == r.statuses;
      case Replying(id, reply) =>
        OutstandingIsCounted(r, id);
        OnReplyKeepsValid(r, id, reply, Some(members));
        StatusesAfterReply(r, id, reply, members);
        UnansweredAfterReply(r.statuses, id, reply, members);
        HappenKeepsSnapshot(r, id, reply, members);
    }
  }

  lemma {:induction false} HappenKeepsSnapshot(r: Request, id: nat, reply: Reply, members: set<nat>)
    requires r.pendingWrites > 0 && r.snapshot == members
    ensures OnReply(r, id, reply, Some(members)).0.snapshot == members
  {
    StatusesAfterStart(AfterReply(r, id, reply), members);
  }

  /**
   As long as the registry does not change, the non-error replies of a request, over all its
   rounds, are at most as many as the members that had not answered.
   */
  lemma {:induction false} AnswersAreBounded(r: Request, es: seq<Event>, members: set<nat>)
    requires Valid(r) && History(r, es, members)
    requires r.snapshot == members || r == New(r.writeConcern)
    ensures Answers(es) <= |Unanswered(r, members)| <= |members|
    decreases |es|
  {
    hide Happen, Valid;
    EqualSizes(Unanswered(r, members), members);
    if es != [] {
      var q := Happen(r, es[0], members);
      HappenShrinks(r, es[0], members);
      AnswersAreBounded(q, es[1..], members);
      if es[0].Replying? && es[0].reply != FAILED {
        assert Unanswered(r, members) == Unanswered(q, members) + {es[0].id};
      }
    }
  }

  /**
   The rounds of a history that get a reply other than an error.  A round ends with the reply
   of its last outstanding secondary; `answered` is whether the current one got such a reply.
   */
  ghost function AnsweredRounds(r: Request, es: seq<Event>, members: set<nat>, answered: bool): nat
    requires History(r, es, members)
    decreases |es|
  {
    var current := if answered then 1 else 0;
    if es == [] then current
    else
      var q := Happen(r, es[0], members);
      match es[0]
      case Starting => current + AnsweredRounds(q, es[1..], members, false)
      case Replying(id, reply) =>
        var answered := answered || reply != FAILED;
        if r.outstanding == {id} then
          (if answered then 1 else 0) + AnsweredRounds(q, es[1..], members, false)
        else AnsweredRounds(q, es[1..], members, answered)
  }

  lemma {:induction false} RoundsNeedAnswers(r: Request, es: seq<Event>, members: set<nat>, answered: bool)
    requires History(r, es, members)
    ensures AnsweredRounds(r, es, members, answered) <= Answers(es) + if answered then 1 else 0
    decreases |es|
  {
    if es != [] {
      hide Happen, Valid;
      var q := Happen(r, es[0], members);
      RoundsNeedAnswers(q, es[1..], members, false);
      RoundsNeedAnswers(q, es[1..], members, true);
    }
  }

  /**
   So at most that many rounds get a reply other than an error: as long as the registry does
   not change, all but that many rounds of a request fail altogether.
   */
  lemma {:induction false} RoundsAreBounded(r: Request, es: seq<Event>, members: set<nat>)
    requires Valid(r) && History(r, es, members)
    requires r.snapshot == members || r == New(r.writeConcern)
    ensures AnsweredRounds(r, es, members, false) <= |Unanswered(r, members)| <= |members|
  {
    hide Valid, History, AnsweredRounds;
    RoundsNeedAnswers(r, es, members, false);
    AnswersAreBounded(r, es, members);
  }

  // ---- the class ----

  ghost predicate Distinct(xs: seq<nat>) {
    forall i, j :: 0 <= i < j < |xs| ==> xs[i] != xs[j]
  }

  ghost function Elements(xs: seq<nat>): set<nat> {
    set x | x in xs
  }

  lemma {:induction false} ElementsSnoc(xs: seq<nat>, x: nat)
    ensures Elements(xs + [x]) == Elements(xs) + {x}
  {
    forall y | y in Elements(xs) + {x} ensures y in Elements(xs + [x]) {
      assert y in xs + [x];
    }
  }

  lemma ElementsEmpty()
    ensures Elements([]) == {}
  {
  }

  lemma QueryNobody(statuses: map<nat, Status>)
    ensures ToQuery(Elements([]), statuses) == {}
  {
  }

  /** One more secondary of the snapshot is asked unless it has a status other than an error. */
  lemma {:induction false} QueryOneMore(xs: seq<nat>, i: nat, statuses: map<nat, Status>)
    requires i < |xs| && Distinct(xs)
    ensures xs[i] !in ToQuery(Elements(xs[..i]), statuses)
    ensures ToQuery(Elements(xs[..i]) + {xs[i]}, statuses) ==
            if xs[i] in statuses && statuses[xs[i]] != ERROR then ToQuery(Elements(xs[..i]), statuses)
            else ToQuery(Elements(xs[..i]), statuses) + {xs[i]}
  {
    assert xs[i] !in xs[..i];
    assert xs[i] in NotHaving(statuses, ERROR) <==> xs[i] in statuses && statuses[xs[i]] != ERROR;
  }

  /** Whoever is asked, pointwise. */
  lemma QueryMeans(xs: seq<nat>, statuses: map<nat, Status>, sent: seq<nat>)
    requires Elements(sent) == ToQuery(Elements(xs), statuses)
    ensures forall id: nat :: id in sent <==> id in xs && Owes(statuses, id)
  {
    forall id: nat ensures id in sent <==> id in xs && Owes(statuses, id) {
      assert id in sent <==> id in Elements(sent);
      assert id in NotHaving(statuses, ERROR) <==> !Owes(statuses, id);
    }
  }

  lemma {:induction false} DistinctSnoc(xs: seq<nat>, x: nat)
    requires Distinct(xs)
    ensures x !in Elements(xs) ==> Distinct(xs + [x])
  {
    forall i | 0 <= i < |xs| ensures xs[i] in Elements(xs) {
    }
  }

  lemma {:induction false} DistinctSize(xs: seq<nat>)
    requires Distinct(xs)
    ensures |Elements(xs)| == |xs|
    decreases |xs|
  {
    if xs != [] {
      var rest := xs[..|xs| - 1];
      DistinctSize(rest);
      assert Elements(xs) == Elements(rest) + {xs[|xs| - 1]};
    }
  }

  class AddMessageRequest {
    const writeConcern: nat
    var started: bool
    var pendingWrites: nat
    var secondariesSnapshot: seq<nat>
    var statuses: map<nat, Status>
    var promiseFilled: bool
    var promise: Promise
    var outstanding: set<nat>
    var timer: bool
    var end: End
    ghost var confirmed: Option<Confirmation>

    ghost function Abs(): Request
      reads this
    {
      Request(writeConcern, started, pendingWrites, Elements(secondariesSnapshot), statuses, promise,
              outstanding, timer, end, confirmed)
    }

    /** The guard flag agrees with the promise, and a snapshot lists no secondary twice. */
    ghost predicate Consistent()
      reads this
    {
      promiseFilled == (promise != Unfilled) && Distinct(secondariesSnapshot)
    }

    constructor (writeConcern: nat)
      ensures Consistent() && Abs() == New(writeConcern)
    {
      this.writeConcern := writeConcern;
      started, pendingWrites, secondariesSnapshot, statuses := false, 0, [], map[];
      promiseFilled, promise, outstanding, timer, end := false, Unfilled, {}, false, Live;
      confirmed := None;
    }

    method SatisfiedWriteConcern() returns (res: nat)
      ensures res == |Having(statuses, ADDED)|
    {
      res := 0;
      var rest := statuses.Keys;
      ghost var counted: set<nat> := {};
      while rest != {}
        invariant rest <= statuses.Keys
        invariant counted == Having(statuses, ADDED) - rest && res == |counted|
      {
        var id :| id in rest;
        rest := rest - {id};
        if statuses[id] == ADDED {
          res := res + 1;
          counted := counted + {id};
        }
      }
    }

    method AllSecondariesSuccessfullyAnswered() returns (res: bool)
      requires Consistent()
      ensures res <==> |NotHaving(statuses, ERROR)| == |Abs().snapshot|
    {
      var successfulAnswers := 0;
      var rest := statuses.Keys;
      ghost var counted: set<nat> := {};
      while rest != {}
        invariant rest <= statuses.Keys
        invariant counted == NotHaving(statuses, ERROR) - rest && successfulAnswers == |counted|
      {
        var id :| id in rest;
        rest := rest - {id};
        if statuses[id] != ERROR {
          successfulAnswers := successfulAnswers + 1;
          counted := counted + {id};
        }
      }
      DistinctSize(secondariesSnapshot);
      res := successfulAnswers == |secondariesSnapshot|;
    }

    method RequestMarkSuccess()
      requires Consistent()
      modifies this`promiseFilled, this`promise, this`confirmed
      ensures Consistent() && Abs() == MarkSuccess(old(Abs()))
    {
      if promiseFilled {
        return;
      }
      promiseFilled := true;
      promise := Fulfilled;
      confirmed := Some(Confirmation(Having(statuses, ADDED), Elements(secondariesSnapshot)));
    }

    method RequestMarkFailure()
      requires Consistent()
      modifies this`promiseFilled, this`promise
      ensures Consistent() && Abs() == MarkFailure(old(Abs()))
    {
      if promiseFilled {
        return;
      }
      promiseFilled := true;
      promise := Broken;
    }

    method UpdateStatuses(snapshot: seq<nat>)
      requires Consistent() && Distinct(snapshot)
      modifies this`secondariesSnapshot, this`statuses
      ensures Consistent() && Abs() == UpdateData(old(Abs()), Elements(snapshot))
    {
      secondariesSnapshot := snapshot;
      var presentSecondaries: set<nat> := {};
      for i := 0 to |secondariesSnapshot|
        invariant secondariesSnapshot == snapshot && statuses == old(statuses)
        invariant presentSecondaries == Elements(snapshot[..i])
      {
        presentSecondaries := presentSecondaries + {secondariesSnapshot[i]};
      }
      assert snapshot[..|snapshot|] == snapshot;
      var rest := statuses.Keys;
      while rest != {}
        invariant secondariesSnapshot == snapshot && rest <= old(statuses).Keys
        invariant statuses ==
          map id | id in old(statuses) && (id in rest || id in Elements(snapshot)) :: old(statuses)[id]
      {
        var id :| id in rest;
        rest := rest - {id};
        if id !in presentSecondaries {
          statuses := statuses - {id};
        }
      }
    }

    method SendRequestToSecondaries() returns (sent: seq<nat>)
      requires Consistent()
      requires pendingWrites > 0 || (outstanding == {} && !timer)
      modifies this`pendingWrites, this`outstanding, this`timer
      ensures Consistent() && Distinct(sent)
      ensures (Abs(), Elements(sent)) == SendRequests(old(Abs()))
      ensures old(pendingWrites) > 0 ==> sent == []
      ensures old(pendingWrites) == 0 ==>
        forall id: nat :: id in sent <==> id in secondariesSnapshot && Owes(statuses, id)
      ensures old(pendingWrites) == 0 ==> pendingWrites == |sent| && (timer <==> sent == [])
    {
      hide Elements, ToQuery, NotHaving, Owes;
      sent := [];
      ElementsEmpty();
      if pendingWrites > 0 {
        return;
      }
      ghost var snapshot := secondariesSnapshot;
      QueryNobody(statuses);
      for i := 0 to |secondariesSnapshot|
        invariant !timer
        invariant Elements(sent) == ToQuery(Elements(snapshot[..i]), statuses)
        invariant outstanding == Elements(sent) && pendingWrites == |sent| && Distinct(sent)
      {
        var id := secondariesSnapshot[i];
        assert snapshot[..i + 1] == snapshot[..i] + [id];
        QueryOneMore(snapshot, i, statuses);
        ElementsSnoc(snapshot[..i], id);
        ElementsSnoc(sent, id);
        DistinctSnoc(sent, id);
        var needToSend := true;
        if id in statuses && statuses[id] != ERROR {
          needToSend := false;
        }
        if needToSend {
          pendingWrites := pendingWrites + 1;
          outstanding := outstanding + {id};
          sent := sent + [id];
        }
      }
      assert snapshot[..|snapshot|] == snapshot;
      DistinctSize(sent);
      QueryMeans(snapshot, statuses, sent);
      if pendingWrites == 0 {
        timer := true;
      }
    }

    /** `start()`, given what locking the master and copying its registry yields. */
    method Begin(snapshot: Option<seq<nat>>) returns (sent: seq<nat>)
      requires Consistent() && (snapshot.Some? ==> Distinct(snapshot.value))
      requires Settled(Abs()) && end == Live && outstanding == {} && pendingWrites == 0
      modifies this
      ensures Consistent()
      ensures var members := if snapshot.None? then None else Some(Elements(snapshot.value));
        (Abs(), Elements(sent)) == Start(old(Abs()), members)
      ensures Valid(Abs()) && Distinct(sent) && Elements(sent) == outstanding
      ensures snapshot.Some? ==> RoundOf(Abs(), Elements(snapshot.value), old(statuses), old(promise) == Fulfilled)
    {
      hide Elements, Settled, Valid, Decide, RoundOf;
      sent := [];
      ghost var members := if snapshot.None? then None else Some(Elements(snapshot.value));
      StartKeepsValid(Abs(), members);
      StartAsks(Abs(), if snapshot.None? then {} else Elements(snapshot.value));
      ElementsEmpty();
      started, timer := true, false;
      if snapshot.None? {
        RequestMarkFailure();
        end := MasterGone;
        return;
      }
      UpdateStatuses(snapshot.value);
      sent := Continue();
    }

    /** The rest of `start()`, once the data is up to date. */
    method Continue() returns (sent: seq<nat>)
      requires Consistent() && outstanding == {} && pendingWrites == 0 && !timer
      modifies this
      ensures Consistent() && Distinct(sent)
      ensures (Abs(), Elements(sent)) == Decide(old(Abs()))
    {
      hide Elements, ToQuery, Having, NotHaving;
      sent := [];
      ElementsEmpty();
      var satisfied := SatisfiedWriteConcern();
      if satisfied >= writeConcern {
        RequestMarkSuccess();
        var all := AllSecondariesSuccessfullyAnswered();
        if all {
          end := Answered;
          return;
        }
      }
      sent := SendRequestToSecondaries();
    }

    /** The posted callback of one secondary; `snapshot` is used when it is the last of its round. */
    method OnResponse(id: nat, reply: Reply, snapshot: Option<seq<nat>>) returns (sent: seq<nat>)
      requires Consistent() && Valid(Abs()) && id in outstanding
      requires snapshot.Some? ==> Distinct(snapshot.value)
      modifies this
      ensures Consistent() && Valid(Abs())
      ensures var members := if snapshot.None? then None else Some(Elements(snapshot.value));
        old(Abs()).pendingWrites > 0 && (Abs(), Elements(sent)) == OnReply(old(Abs()), id, reply, members)
    {
      hide Start, Valid, Settled;
      sent := [];
      ghost var members := if snapshot.None? then None else Some(Elements(snapshot.value));
      ghost var was := Abs();
      AfterReplySettles(Abs(), id, reply);
      OnReplyKeepsValid(Abs(), id, reply, members);
      statuses := statuses[id := StatusOf(reply)];
      var satisfied := SatisfiedWriteConcern();
      if satisfied >= writeConcern {
        RequestMarkSuccess();
      }
      pendingWrites := pendingWrites - 1;
      outstanding := outstanding - {id};
      assert Abs() == AfterReply(was, id, reply);
      if pendingWrites == 0 {
        assert outstanding == {};
        sent := Begin(snapshot);
      } else {
        assert Elements(sent) == {};
      }
    }
  }
}
