/**
 The guarantees of the replicated log.  Each speaks about every run of the system: any
 number of secondaries, any loss, delay, repetition and reordering of frames, any timeouts,
 broken connections and reconnects.
 */
module Theorems {
  import opened Wrappers
  import opened Logs
  import opened RequestTable
  import opened Protocol
  import opened Growth
  import opened Agreement
  import opened Confirmations
  import opened CatchUp
  import opened Rounds
  import opened Runs
  import opened Delivery
  import opened DistinctNodes
  import MasterStorage
  import MasterNode
  import SecondaryNode
  import SecondaryStorage
  import R = AddMessageRequest

  // ---- agreement ----

  /**
   Whatever a secondary stores is what the master stores under the same id, nothing stored is
   ever changed or lost, and what a secondary shows is a prefix of what the master shows,
   which itself only gets longer.
   */
  lemma {:induction false} LogsAgree(ss: seq<State>, es: seq<Step>, i: nat, j: nat, n: nat)
    requires IsRun(ss, es) && i <= j < |ss| && n < |ss[i].nodes|
    ensures n < |ss[j].nodes|
    ensures SubLog(ss[i].nodes[n].store, ss[j].nodes[n].store)
    ensures SubLog(ss[j].nodes[n].store, ss[j].storage.messages)
    ensures SubLog(ss[i].storage.messages, ss[j].storage.messages)
    ensures Chunk(ss[i].nodes[n].store, 0) <= Chunk(ss[j].nodes[n].store, 0) <= Chunk(ss[j].storage.messages, 0)
  {
    hide IsRun, WellFormed, Confirmed, CaughtUp, RoundsOk, Chunk;
    RunInv(ss, es, j);
    RunGrows(ss, es, i, j);
    SubLogPrefix(ss[i].nodes[n].store, ss[j].nodes[n].store);
    SubLogPrefix(ss[j].nodes[n].store, ss[j].storage.messages);
  }

  // ---- write concern ----

  /** Message `m`, with the master's text, is in the store behind connection `id`. */
  ghost predicate Stored(s: State, id: nat, m: nat) {
    Holds(s, id, m) && NodeStores(s, NodeOf(s, id), m)
  }

  /** Node `n` stores message `m` with the master's text. */
  ghost predicate NodeStores(s: State, n: nat, m: nat) {
    && n < |s.nodes| && m in s.nodes[n].store
    && m in s.storage.messages && s.nodes[n].store[m] == s.storage.messages[m]
  }

  lemma {:induction false} HeldIsStored(s: State, id: nat, m: nat)
    requires Inv(s) && Holds(s, id, m)
    ensures Stored(s, id, m)
  {
    hide WellFormed, Confirmed, CaughtUp, RoundsOk;
    assert SubLog(s.nodes[NodeOf(s, id)].store, s.storage.messages);
  }

  /**
   In every state in which a message added with write concern `N > 1` counts as confirmed, at
   least `N - 1` connections that the registry showed at one and the same earlier moment have
   stored exactly that message.
   */
  lemma {:induction false} WriteConcern(ss: seq<State>, es: seq<Step>, k: nat, i: nat) returns (ids: set<nat>, j: nat)
    requires IsRun(ss, es) && k < i < |ss| && es[k].Inserts? && es[k].writeConcern > 1
    requires es[k].id in ss[i].requests && ss[i].requests[es[k].id].promise == R.Fulfilled
    ensures |ids| >= es[k].writeConcern - 1
    ensures j <= i && ids <= ss[j].registry.entries.Keys
    ensures forall id :: id in ids ==> Stored(ss[i], id, es[k].id)
  {
    var m := es[k].id;
    var r := ss[i].requests[m];
    RunInv(ss, es, i);
    Snapshots(ss, es, i);
    ConcernStays(ss, es, k, i);
    FulfilledIsConfirmed(ss[i], m);
    ids := r.confirmed.value.ids;
    assert WasRegistry(ss, i, r.confirmed.value.among);
    j :| 0 <= j <= i && j < |ss| && ss[j].registry.entries.Keys == r.confirmed.value.among;
    forall id | id in ids ensures Stored(ss[i], id, m) {
      HeldIsStored(ss[i], id, m);
    }
  }

  lemma {:induction false} FulfilledIsConfirmed(s: State, m: nat)
    requires Inv(s) && m in s.requests && s.requests[m].promise == R.Fulfilled
    ensures s.requests[m].confirmed.Some?
    ensures |s.requests[m].confirmed.value.ids| >= s.requests[m].writeConcern
    ensures s.requests[m].confirmed.value.ids <= s.requests[m].confirmed.value.among
    ensures forall id :: id in s.requests[m].confirmed.value.ids ==> Holds(s, id, m)
  {
    hide WellFormed, Agrees, CaughtUp, Holds;
    assert R.Valid(s.requests[m]);
    assert RequestOk(s, m, s.requests[m]);
  }

  /**
   The same on nodes, with the exact condition.  The confirmations of a message with write
   concern `N > 1` come from as many nodes as connections if and only if no confirming
   connection was registered while another one of the same node was; and they come from
   `N - 1` nodes if and only if this holds of some `N - 1` of them.
   */
  lemma {:induction false} WriteConcernOnNodes(ss: seq<State>, es: seq<Step>, k: nat, i: nat)
    returns (ids: set<nat>, j: nat)
    requires IsRun(ss, es) && k < i < |ss| && es[k].Inserts? && es[k].writeConcern > 1
    requires es[k].id in ss[i].requests && ss[i].requests[es[k].id].promise == R.Fulfilled
    ensures |ids| >= es[k].writeConcern - 1
    ensures j <= i && ids <= ss[j].registry.entries.Keys
    ensures forall id :: id in ids ==> Attached(ss[i], id) && Stored(ss[i], id, es[k].id)
    ensures forall n :: n in NodesOf(ss[i], ids) ==> NodeStores(ss[i], n, es[k].id)
    ensures |NodesOf(ss[i], ids)| == |ids| <==> NeverTogether(ss, es, j, ids)
    ensures |NodesOf(ss[i], ids)| >= es[k].writeConcern - 1 <==>
            exists some :: some <= ids && |some| >= es[k].writeConcern - 1 && NeverTogether(ss, es, j, some)
  {
    var m, wanted := es[k].id, es[k].writeConcern - 1;
    hide IsRun, NeverTogether;
    ids, j := WriteConcern(ss, es, k, i);
    DistinctNodesIff(ss, es, j, i, ids);
    EnoughNodesIff(ss, es, j, i, ids, wanted);
    forall n | n in NodesOf(ss[i], ids) ensures NodeStores(ss[i], n, m) {
      var id :| id in ids && NodeOf(ss[i], id) == n;
      assert Stored(ss[i], id, m);
    }
  }

  /**
   In particular, when a node's old connection is always removed before its new one is
   registered, the confirmations come from `N - 1` different nodes.
   */
  lemma {:induction false} WriteConcernWhenOldRemovedFirst(ss: seq<State>, es: seq<Step>, k: nat, i: nat)
    returns (nodes: set<nat>)
    requires IsRun(ss, es) && OldRemovedFirst(ss, es)
    requires k < i < |ss| && es[k].Inserts? && es[k].writeConcern > 1
    requires es[k].id in ss[i].requests && ss[i].requests[es[k].id].promise == R.Fulfilled
    ensures |nodes| >= es[k].writeConcern - 1
    ensures forall n :: n in nodes ==> NodeStores(ss[i], n, es[k].id)
  {
    var ids, j := WriteConcernOnNodes(ss, es, k, i);
    OldRemovedFirstIsEnough(ss, es, j, ids);
    nodes := NodesOf(ss[i], ids);
  }

  // ---- catching up ----

  /**
   Step `j`, before `i`, ended the reading of the answer that session `c` has accepted by
   state `i`: the answer to that request on that connection, with those texts.
   */
  ghost predicate AcceptedAt(ss: seq<State>, es: seq<Step>, i: nat, c: nat, j: nat)
    requires i < |ss|
  {
    && c < |ss[i].chans| && ss[i].chans[c].conn.Some? && ss[i].chans[c].accepted.Some?
    && var a := ss[i].chans[c].accepted.value;
       ReadIn(ss, es, i, j, ss[i].chans[c].conn.value, a.req, a.texts, a.seen)
  }

  /**
   The store behind session `c` reaches at least as far as the master's log did when the
   answer that the session accepted was read.
   */
  ghost predicate CaughtUpSince(ss: seq<State>, es: seq<Step>, i: nat, c: nat)
    requires i < |ss|
  {
    && c < |ss[i].chans| && ss[i].chans[c].node < |ss[i].nodes|
    && exists j: nat :: AcceptedAt(ss, es, i, c, j)
         && FirstGap(ss[j].storage.messages) <= FirstGap(ss[i].nodes[ss[i].chans[c].node].store)
  }

  lemma {:induction false} AcceptedCatchesUp(ss: seq<State>, es: seq<Step>, i: nat, c: nat)
    requires IsRun(ss, es) && i < |ss| && c < |ss[i].chans| && ss[i].chans[c].accepted.Some?
    ensures CaughtUpSince(ss, es, i, c)
  {
    hide Inv, FramesRead, ReadIn, FirstGap, IsRun;
    RunInv(ss, es, i);
    Provenance(ss, es, i);
    SessionParts(ss[i], c);
    var d := ss[i].chans[c];
    var a := d.accepted.value;
    assert AnswerRead(ss, es, i, d, a.req, Texts(a.texts, a.seen));
    var j: nat :| ReadIn(ss, es, i, j, d.conn.value, a.req, a.texts, a.seen);
    ReadWhat(ss, es, i, j, d.conn.value, a.req, a.texts, a.seen);
    assert AcceptedAt(ss, es, i, c, j);
  }

  lemma ReadWhat(ss: seq<State>, es: seq<Step>, i: nat, j: nat, id: nat, req: nat, texts: seq<Message>, log: Log)
    requires ReadIn(ss, es, i, j, id, req, texts, log)
    ensures j < i && j < |es| && j < |ss| && es[j] == ScanEnds && ss[j].storage.messages == log
    ensures ss[j].reader.Some? && ss[j].reader.value.conn == id && ss[j].reader.value.req == req
    ensures ss[j].reader.value.scan.texts == texts
  {
  }

  /**
   A node that calls itself operational, and a connection that the registry calls
   operational, have caught up with the answer that their present session accepted.
   */
  lemma {:induction false} OperationalMeansCaughtUp(ss: seq<State>, es: seq<Step>, i: nat)
    requires IsRun(ss, es) && i < |ss|
    ensures forall n {:trigger ss[i].nodes[n]} :: 0 <= n < |ss[i].nodes| && ss[i].nodes[n].operational ==>
      ss[i].nodes[n].session.Some? && CaughtUpSince(ss, es, i, ss[i].nodes[n].session.value)
    ensures forall id {:trigger id in ss[i].registry.entries} ::
      id in ss[i].registry.entries && ss[i].registry.entries[id] == MasterNode.OPERATIONAL ==>
        Attached(ss[i], id) && CaughtUpSince(ss, es, i, ss[i].conns[id].chan)
  {
    hide IsRun, CaughtUpSince, WellFormed, Agrees, Confirmed, SessionsOk, RoundsOk;
    RunInv(ss, es, i);
    forall n | 0 <= n < |ss[i].nodes| && ss[i].nodes[n].operational
      ensures ss[i].nodes[n].session.Some? && CaughtUpSince(ss, es, i, ss[i].nodes[n].session.value)
    {
      AcceptedCatchesUp(ss, es, i, ss[i].nodes[n].session.value);
    }
    forall id | id in ss[i].registry.entries && ss[i].registry.entries[id] == MasterNode.OPERATIONAL
      ensures Attached(ss[i], id) && CaughtUpSince(ss, es, i, ss[i].conns[id].chan)
    {
      AcceptedCatchesUp(ss, es, i, ss[i].conns[id].chan);
    }
  }

  // ---- which answer is stored where ----

  /**
   A session's callback stores a chunk exactly when its request was a `GetMessages` that was
   answered.  That request is the session's latest, the chunk goes to the id it asked for and
   holds the master's texts from there on, and it is the only chunk the session ever stores.
   Any other callback leaves the store alone.
   */
  lemma {:induction false} ChunkIsStoredWhereAsked(ss: seq<State>, es: seq<Step>, i: nat)
    requires IsRun(ss, es) && i < |es| && es[i].SessionCallback?
    ensures Enabled(ss[i], es[i]) && es[i].chan < |ss[i + 1].chans|
    ensures var d, d' := ss[i].chans[es[i].chan], ss[i + 1].chans[es[i].chan];
      if d.out.issued[es[i].req].GetMessages? && d.out.resolved[es[i].req].Answer? then
        && es[i].req == |d.out.issued| - 1 && d.accepted.None?
        && d.out.resolved[es[i].req].value.Texts?
        && var start, a := d.out.issued[es[i].req].start, d.out.resolved[es[i].req].value;
        && d'.accepted == Some(Acceptance(es[i].req, a.texts, a.seen))
        && Slice(start, a.texts, ss[i].storage.messages)
        && ss[i + 1].nodes[d.node].store == SecondaryStorage.InsertAll(ss[i].nodes[d.node].store, start, a.texts)
        && start <= FirstGap(ss[i].nodes[d.node].store)
      else
        d'.accepted == d.accepted && ss[i + 1].nodes[d.node].store == ss[i].nodes[d.node].store
  {
    hide IsRun, Inv, FirstGap, SubLog, Conserved, SecondaryStorage.InsertAll, TableOk;
    var c, k := es[i].chan, es[i].req;
    StepOf(ss, es, i);
    RunInv(ss, es, i);
    SessionParts(ss[i], c);
    CallbackCatchesUp(ss[i], c, k);
    assert AnswerOkAt(ss[i], c, k);
  }

  /** A late answer to an earlier request of the session, or a second answer to any, changes nothing. */
  lemma {:induction false} LateAnswersAreDropped(ss: seq<State>, es: seq<Step>, i: nat)
    requires IsRun(ss, es) && i < |es| && es[i].SessionDelivers?
    ensures es[i].chan < |ss[i].chans|
    ensures var d := ss[i].chans[es[i].chan];
      es[i].frame.req < |d.out.issued| - 1 || es[i].frame.req in d.out.resolved ==> ss[i + 1] == ss[i]
  {
    hide IsRun, Inv, FirstGap, SubLog;
    var c := es[i].chan;
    StepOf(ss, es, i);
    RunInv(ss, es, i);
    SessionParts(ss[i], c);
    var d, k := ss[i].chans[c], es[i].frame.req;
    if k < |d.out.issued| - 1 {
      assert k in d.fired;
    }
    assert k in d.out.resolved ==> k !in d.out.pending;
    if k !in d.out.pending {
      assert ss[i].chans[c := d] == ss[i].chans;
    }
  }

  // ---- the life of a request ----

  ghost function Callers(s: State, m: nat): set<nat> {
    set id: nat | id < |s.conns| && HasCall(s.conns, id, m)
  }

  /**
   Every request that has begun is in exactly one phase, waits for exactly the callbacks that
   are still due, one per connection, and does not end without having told its caller.
   */
  lemma {:induction false} RequestLifeCycle(ss: seq<State>, es: seq<Step>, i: nat, m: nat)
    requires IsRun(ss, es) && i < |ss| && m in ss[i].requests && ss[i].requests[m].started
    ensures R.OnePhase(ss[i].requests[m])
    ensures ss[i].requests[m].pendingWrites == |Callers(ss[i], m)|
    ensures R.Finished(ss[i].requests[m]) ==> ss[i].requests[m].promise == R.Fulfilled
    ensures R.TimerWaiting(ss[i].requests[m]) ==>
      |R.Having(ss[i].requests[m].statuses, R.ADDED)| < ss[i].requests[m].writeConcern
  {
    hide IsRun, WellFormed, Agrees, Confirmed, CaughtUp, R.OnePhase;
    RunInv(ss, es, i);
    MasterStays(ss, es, i, m);
    var s := ss[i];
    forall id | id in Callers(s, m) ensures id in s.requests[m].outstanding {
      var k: nat :| LiveCall(s.conns, id, k) && s.conns[id].out.issued[k].id == m;
    }
    forall id | id in s.requests[m].outstanding ensures id in Callers(s, m) {
      assert HasCall(s.conns, id, m);
    }
    assert Callers(s, m) == s.requests[m].outstanding;
    ValidPhases(s.requests[m]);
  }

  lemma ValidPhases(r: R.Request)
    requires R.Valid(r) && r.started
    ensures R.OnePhase(r) && r.pendingWrites == |r.outstanding|
    ensures r.end == R.Answered ==> r.promise == R.Fulfilled
    ensures r.timer ==> |R.Having(r.statuses, R.ADDED)| < r.writeConcern
  {
  }

  /** With the master always there, no request ends for its absence. */
  lemma {:induction false} MasterStays(ss: seq<State>, es: seq<Step>, i: nat, m: nat)
    requires IsRun(ss, es) && i < |ss| && m in ss[i].requests
    ensures ss[i].requests[m].end != R.MasterGone
    decreases i
  {
    hide Inv, Apply, R.Start, R.OnReply, R.Valid;
    if i > 0 {
      var s, e := ss[i - 1], es[i - 1];
      RunInv(ss, es, i - 1);
      StepOf(ss, es, i - 1);
      RequestChange(s, e, m);
      if m in s.requests {
        MasterStays(ss, es, i - 1, m);
        if e.RequestStarts? && m == e.id {
          R.StartWithMaster(s.requests[m], s.registry.entries.Keys);
        } else if e.RequestCallback? && m == s.conns[e.conn].out.issued[e.req].id {
          CallbackIsOutstanding(s, e.conn, e.req);
          var reply := ReplyOf(s.conns[e.conn].out.resolved[e.req]);
          R.OnReplyWithMaster(s.requests[m], e.conn, reply, s.registry.entries.Keys);
        }
      }
    }
  }

  /** The request has begun and no round of it is in flight: it waits or has ended. */
  ghost predicate RoundOver(r: R.Request) {
    r.started && r.pendingWrites == 0
  }

  /** Then everybody in its snapshot has answered. */
  lemma {:induction false} RoundOverIsAnswered(ss: seq<State>, es: seq<Step>, i: nat, m: nat)
    requires IsRun(ss, es) && i < |ss| && m in ss[i].requests && RoundOver(ss[i].requests[m])
    ensures R.AllAnswered(ss[i].requests[m]) && R.Valid(ss[i].requests[m])
    ensures ss[i].requests[m].timer <==> ss[i].requests[m].end == R.Live
    ensures ss[i].requests[m].timer <==> ss[i].requests[m].end != R.Answered
  {
    hide IsRun, Inv;
    RunInv(ss, es, i);
    MasterStays(ss, es, i, m);
    ValidRequest(ss[i], m);
  }

  /**
   Between rounds a request waits exactly when its last snapshot had fewer secondaries than
   its write concern, and has ended otherwise.  If it waits although its caller was told of
   success, one of the secondaries that confirmed has left the snapshot since.
   */
  lemma {:induction false} WaitsIff(ss: seq<State>, es: seq<Step>, i: nat, m: nat)
    requires IsRun(ss, es) && i < |ss| && m in ss[i].requests && RoundOver(ss[i].requests[m])
    ensures ss[i].requests[m].timer <==> |ss[i].requests[m].snapshot| < ss[i].requests[m].writeConcern
    ensures ss[i].requests[m].end == R.Answered <==> |ss[i].requests[m].snapshot| >= ss[i].requests[m].writeConcern
    ensures ss[i].requests[m].timer && ss[i].requests[m].promise == R.Fulfilled ==>
      ss[i].requests[m].confirmed.Some?
      && exists id :: id in ss[i].requests[m].confirmed.value.ids && id !in ss[i].requests[m].snapshot
  {
    hide IsRun, Inv;
    RunInv(ss, es, i);
    RoundOverIsAnswered(ss, es, i, m);
    var r := ss[i].requests[m];
    NobodyRefuses(ss[i], m);
    assert R.Having(r.statuses, R.ADDED) == r.snapshot;
    if r.timer && r.promise == R.Fulfilled && r.confirmed.value.ids <= r.snapshot {
      R.EqualSizes(r.confirmed.value.ids, r.snapshot);
    }
  }

  lemma NobodyRefuses(s: State, m: nat)
    requires Inv(s) && m in s.requests
    ensures forall id {:trigger id in s.requests[m].statuses} :: id in s.requests[m].statuses ==>
      s.requests[m].statuses[id] != R.NOT_ADDED
  {
    hide WellFormed, Agrees, CaughtUp, RoundsOk, Holds;
    assert RequestOk(s, m, s.requests[m]);
  }

  /** A round starts only when no write is pending, so the branch that gives up then is never taken. */
  lemma {:induction false} RoundsStartIdle(ss: seq<State>, es: seq<Step>, i: nat)
    requires IsRun(ss, es) && i < |es|
    ensures es[i].RequestStarts? ==>
      es[i].id in ss[i].requests && ss[i].requests[es[i].id].pendingWrites == 0
    ensures es[i].RequestCallback? ==>
      var m := ss[i].conns[es[i].conn].out.issued[es[i].req].id;
      && ss[i].requests[m].pendingWrites > 0
      && (ss[i].requests[m].pendingWrites == 1 <==> ss[i].requests[m].outstanding == {es[i].conn})
  {
    hide IsRun, Inv, Apply;
    StepOf(ss, es, i);
    RunInv(ss, es, i);
    if es[i].RequestStarts? {
      StartingIsIdle(ss[i], es[i].id);
    } else if es[i].RequestCallback? {
      var m := ss[i].conns[es[i].conn].out.issued[es[i].req].id;
      CallbackIsOutstanding(ss[i], es[i].conn, es[i].req);
      R.AfterReplySettles(ss[i].requests[m], es[i].conn, R.OK);
    }
  }

  lemma StartingIsIdle(s: State, m: nat)
    requires Inv(s) && Enabled(s, RequestStarts(m))
    ensures s.requests[m].pendingWrites == 0
  {
    hide WellFormed, Agrees, Confirmed, CaughtUp;
    assert R.Valid(s.requests[m]);
  }

  /** A resolved call of the master whose callback has not run can always run it: no guard blocks it. */
  lemma {:induction false} CallbacksAreEnabled(ss: seq<State>, es: seq<Step>, i: nat, id: nat, k: nat)
    requires IsRun(ss, es) && i < |ss| && id < |ss[i].conns|
    requires k in ss[i].conns[id].out.resolved && k !in ss[i].conns[id].fired
    ensures Enabled(ss[i], RequestCallback(id, k))
  {
    hide IsRun, Inv;
    RunInv(ss, es, i);
    ResolvedCanFire(ss[i], id, k);
  }

  lemma {:induction false} ResolvedCanFire(s: State, id: nat, k: nat)
    requires Inv(s) && id < |s.conns| && k in s.conns[id].out.resolved && k !in s.conns[id].fired
    ensures Enabled(s, RequestCallback(id, k))
  {
    hide Agrees, Confirmed, CaughtUp, NodesOk, ChansOk, R.Valid;
    assert TableOk(s.conns[id].out, s.conns[id].written, s.conns[id].fired);
    assert LiveCall(s.conns, id, k);
    var m := s.conns[id].out.issued[k].id;
    assert id in s.requests[m].outstanding;
    ValidRequest(s, m);
    R.OutstandingIsCounted(s.requests[m], id);
  }

  /** The next step of request `m` itself: its start, its timer, or the fate of one of its calls. */
  ghost predicate OwnStep(s: State, m: nat, e: Step) {
    match e
    case RequestStarts(id) => id == m
    case ConnFails(id, k) => id < |s.conns| && k < |s.conns[id].out.issued| && s.conns[id].out.issued[k].id == m
    case RequestCallback(id, k) => id < |s.conns| && k < |s.conns[id].out.issued| && s.conns[id].out.issued[k].id == m
    case _ => false
  }

  /** No request is ever stuck: until it ends, one of its own steps can happen. */
  lemma {:induction false} RequestIsNeverStuck(ss: seq<State>, es: seq<Step>, i: nat, m: nat) returns (e: Step)
    requires IsRun(ss, es) && i < |ss| && m in ss[i].requests && ss[i].requests[m].end == R.Live
    ensures Enabled(ss[i], e) && OwnStep(ss[i], m, e)
  {
    hide IsRun;
    RunInv(ss, es, i);
    e := NextStep(ss[i], m);
  }

  lemma {:induction false} LiveCallOf(s: State, m: nat, id: nat) returns (k: nat)
    requires Inv(s) && m in s.requests && id in s.requests[m].outstanding
    ensures LiveCall(s.conns, id, k) && s.conns[id].out.issued[k].id == m
    ensures k in s.conns[id].out.pending || k in s.conns[id].out.resolved
  {
    hide Agrees, Confirmed, CaughtUp, NodesOk, ChansOk, R.Valid;
    assert HasCall(s.conns, id, m);
    k :| LiveCall(s.conns, id, k) && s.conns[id].out.issued[k].id == m;
    assert TableOk(s.conns[id].out, s.conns[id].written, s.conns[id].fired);
  }

  lemma ValidRequest(s: State, m: nat)
    requires Inv(s) && m in s.requests
    ensures R.Valid(s.requests[m]) && m in s.storage.messages
  {
    hide Agrees, Confirmed, CaughtUp, NodesOk, ChansOk, ConnsOk, R.Valid;
  }

  lemma {:induction false} NextStep(s: State, m: nat) returns (e: Step)
    requires Inv(s) && m in s.requests && s.requests[m].end == R.Live
    ensures Enabled(s, e) && OwnStep(s, m, e)
  {
    hide Inv;
    var r := s.requests[m];
    ValidRequest(s, m);
    if !r.started || r.timer {
      e := RequestStarts(m);
    } else {
      var id :| id in r.outstanding;
      R.OutstandingIsCounted(r, id);
      hide R.Valid;
      var k := LiveCallOf(s, m, id);
      e := if k in s.conns[id].out.pending then ConnFails(id, k) else RequestCallback(id, k);
    }
  }

  // ---- convergence ----

  /** No id below `m` is reserved without being inserted. */
  ghost predicate NothingReservedBelow(s: State, m: nat) {
    forall k {:trigger k in s.storage.reserved} :: k in s.storage.reserved ==> m <= k
  }

  /** When the answer that session `c` has accepted was read, no id below `m` was reserved. */
  ghost predicate ReadClean(ss: seq<State>, es: seq<Step>, i: nat, c: nat, m: nat)
    requires i < |ss|
  {
    exists j: nat :: AcceptedAt(ss, es, i, c, j) && NothingReservedBelow(ss[j], m)
  }

  /** A scan starts at an id that the node behind it had reached. */
  lemma {:induction false} ScanStartsInReach(s: State)
    requires Inv(s) && s.reader.Some?
    ensures s.reader.value.scan.start <= FirstGap(s.storage.messages)
  {
    hide WellFormed, StoresAgree, FramesOk, AnswersOk, Confirmed, RoundsOk, FirstGap, SubLog, TableOk;
    var c := s.conns[s.reader.value.conn].chan;
    SessionParts(s, c);
    NodeIsSubLog(s, s.chans[c].node);
    SubLogPrefix(StoreOf(s, c), s.storage.messages);
  }

  lemma ScanIsSlice(s: State)
    requires Inv(s) && s.reader.Some?
    ensures MasterStorage.Valid(s.storage) && MasterStorage.ScanMatches(s.reader.value.scan, s.storage.messages)
  {
    hide Confirmed, CaughtUp, RoundsOk, ConnsOk, ChansOk, NodesOk, MasterStorage.ScanMatches, MasterStorage.Valid;
  }

  lemma NodeIsSubLog(s: State, n: nat)
    requires Inv(s) && n < |s.nodes|
    ensures SubLog(s.nodes[n].store, s.storage.messages)
  {
    hide WellFormed, Confirmed, CaughtUp, RoundsOk, SubLog;
  }

  /** What the answer on the wire covers: message `m` exactly when no id up to it is missing. */
  lemma {:induction false} AnswerCoversIff(s: State, m: nat)
    requires s.reader.Some? && Enabled(s, ScanEnds) && m in s.storage.messages && Inv(s)
    ensures m < s.reader.value.scan.Pos() <==> NothingReservedBelow(s, m)
  {
    hide Inv, FirstGap, MasterStorage.ScanMatches, MasterStorage.Valid;
    ScanStartsInReach(s);
    ScanIsSlice(s);
    MasterStorage.ScanReachesIff(s.storage, s.reader.value.scan, m);
  }

  /**
   Convergence.  No round of the request for message `m` is in flight any more.  Then every
   connection that is registered and has caught up belongs to a node that holds `m`,
   provided that, unless the request's last round asked it, no id below `m` was reserved when
   the answer it accepted was read.
   */
  lemma {:induction false} Convergence(ss: seq<State>, es: seq<Step>, i: nat, m: nat, id: nat)
    requires IsRun(ss, es) && i < |ss|
    requires m in ss[i].requests && RoundOver(ss[i].requests[m])
    requires id in ss[i].registry.entries
    requires Attached(ss[i], id) && ss[i].chans[ss[i].conns[id].chan].accepted.Some?
    requires id !in ss[i].requests[m].snapshot ==> ReadClean(ss, es, i, ss[i].conns[id].chan, m)
    ensures Stored(ss[i], id, m)
  {
    hide IsRun, Inv, ReadClean;
    RunInv(ss, es, i);
    var s := ss[i];
    RoundOverIsAnswered(ss, es, i, m);
    if id in s.requests[m].snapshot {
      AskedHolds(s, m, id);
    } else {
      AskedOrSeen(s, m, id);
      SeenByAnswer(s, id, m);
      CleanReadHolds(ss, es, i, m, id);
    }
    HeldIsStored(s, id, m);
  }

  /** Either the last round asked `id`, or `id` was registered when `m` was in the log already. */
  lemma {:induction false} AskedOrSeen(s: State, m: nat, id: nat)
    requires Inv(s) && m in s.requests && s.requests[m].started && id in s.registry.entries
    ensures id < |s.conns| && (id in s.requests[m].snapshot || m in s.conns[id].regSeen)
  {
    hide Agrees, Confirmed, CaughtUp, ConnsOk, ChansOk, NodesOk, R.Valid;
    assert id < |s.conns|;
  }

  lemma {:induction false} AskedHolds(s: State, m: nat, id: nat)
    requires Inv(s) && m in s.requests && R.AllAnswered(s.requests[m]) && id in s.requests[m].snapshot
    ensures Holds(s, id, m)
  {
    hide WellFormed, Agrees, CaughtUp, RoundsOk, Holds;
    assert RequestOk(s, m, s.requests[m]);
  }

  lemma {:induction false} SeenByAnswer(s: State, id: nat, m: nat)
    requires Inv(s) && Attached(s, id) && m in s.conns[id].regSeen
    requires s.chans[s.conns[id].chan].accepted.Some?
    ensures s.chans[s.conns[id].chan].conn == Some(id)
    ensures m in s.chans[s.conns[id].chan].accepted.value.seen
  {
    hide Agrees, Confirmed, RoundsOk, FirstGap;
    var c := s.conns[id].chan;
    assert AcceptedOkAt(s, c);
  }

  lemma {:induction false} CleanReadHolds(ss: seq<State>, es: seq<Step>, i: nat, m: nat, id: nat)
    requires IsRun(ss, es) && i < |ss| && Attached(ss[i], id)
    requires ss[i].chans[ss[i].conns[id].chan].accepted.Some?
    requires m in ss[i].chans[ss[i].conns[id].chan].accepted.value.seen
    requires ReadClean(ss, es, i, ss[i].conns[id].chan, m)
    ensures Holds(ss[i], id, m)
  {
    hide IsRun, Inv, FirstGap, Holds;
    var c := ss[i].conns[id].chan;
    var j: nat :| AcceptedAt(ss, es, i, c, j) && NothingReservedBelow(ss[j], m);
    var a := ss[i].chans[c].accepted.value;
    ReadWhat(ss, es, i, j, ss[i].chans[c].conn.value, a.req, a.texts, a.seen);
    RunInv(ss, es, i);
    RunInv(ss, es, j);
    StorageValid(ss[j]);
    MasterStorage.ReachesIff(ss[j].storage, m);
    ReachedHolds(ss[i], id, m);
  }

  lemma StorageValid(s: State)
    requires Inv(s)
    ensures MasterStorage.Valid(s.storage) && s.requests.Keys == s.storage.messages.Keys
  {
  }

  lemma {:induction false} ReachedHolds(s: State, id: nat, m: nat)
    requires Inv(s) && Attached(s, id) && s.chans[s.conns[id].chan].accepted.Some?
    requires m < FirstGap(s.chans[s.conns[id].chan].accepted.value.seen)
    ensures Holds(s, id, m)
  {
    hide Agrees, Confirmed, RoundsOk;
    var c := s.conns[id].chan;
    assert AcceptedOkAt(s, c);
  }

  // ---- when a message is missed ----

  /** Up to state `i` node `n` was not sent message `m` on its own. */
  ghost predicate NeverSentSingly(ss: seq<State>, es: seq<Step>, i: nat, n: nat, m: nat) {
    forall j: nat {:trigger es[j]} :: j < i && j < |es| && j < |ss| ==> !SendsSingly(ss[j], es[j], n, m)
  }

  /** Up to state `i` no session of node `n` but `c` stored a chunk that covers `m`. */
  ghost predicate NoOtherChunk(ss: seq<State>, es: seq<Step>, i: nat, n: nat, c: nat, m: nat) {
    forall j: nat {:trigger es[j]} :: j < i && j < |es| && j < |ss| && BringsInChunk(ss[j], es[j], n, m) ==>
      es[j].chan == c
  }

  /** What is known of the scan that ended with the accepted answer. */
  lemma {:induction false} AcceptedScan(ss: seq<State>, es: seq<Step>, i: nat, c: nat, j: nat)
    requires IsRun(ss, es) && i < |ss| && AcceptedAt(ss, es, i, c, j)
    ensures j < i && Inv(ss[j]) && Enabled(ss[j], ScanEnds)
    ensures ss[j].storage.messages == ss[i].chans[c].accepted.value.seen
    ensures var a := ss[i].chans[c].accepted.value;
      && a.req < |ss[i].chans[c].out.issued| && ss[i].chans[c].out.issued[a.req].GetMessages?
      && ss[j].reader.value.scan == MasterStorage.Scan(ss[i].chans[c].out.issued[a.req].start, a.texts)
  {
    hide IsRun, Inv, Grows, Apply, ReadIn;
    var d := ss[i].chans[c];
    ReadWhat(ss, es, i, j, d.conn.value, d.accepted.value.req, d.accepted.value.texts, d.accepted.value.seen);
    StepOf(ss, es, j);
    RunInv(ss, es, i);
    RunInv(ss, es, j);
    RunGrows(ss, es, j, i);
    SessionParts(ss[i], c);
    ReaderAsked(ss[j], ss[i]);
  }

  /** The request a scan answers is, later, still the request of the session at the far end. */
  lemma {:induction false} ReaderAsked(s: State, t: State)
    requires Inv(s) && Inv(t) && Grows(s, t) && s.reader.Some?
    ensures s.reader.value.conn < |t.conns| && t.conns[s.reader.value.conn].chan < |t.chans|
    ensures forall c: nat {:trigger t.chans[c]} :: c < |t.chans| && t.chans[c].conn == Some(s.reader.value.conn) ==>
      && s.reader.value.req < |t.chans[c].out.issued|
      && t.chans[c].out.issued[s.reader.value.req] == SecondaryNode.GetMessages(s.reader.value.scan.start)
  {
    hide StoresAgree, CallsAgree, FramesOk, AnswersOk, Confirmed, CaughtUp, RoundsOk, TableOk, SubLog, Conserved;
    var id := s.reader.value.conn;
    var c := s.conns[id].chan;
    assert ConnGrows(s.conns[id], t.conns[id]);
    assert SessionGrows(s.chans[c], t.chans[c]);
  }

  /** If the same answer was read more than once, all those readings were clean or none was. */
  lemma {:induction false} ReadingsAgree(ss: seq<State>, es: seq<Step>, i: nat, c: nat, j: nat, k: nat, m: nat)
    requires IsRun(ss, es) && i < |ss| && AcceptedAt(ss, es, i, c, j) && AcceptedAt(ss, es, i, c, k)
    requires m in ss[i].chans[c].accepted.value.seen
    ensures NothingReservedBelow(ss[j], m) <==> NothingReservedBelow(ss[k], m)
  {
    hide IsRun, Inv, ReadIn, NothingReservedBelow;
    AcceptedScan(ss, es, i, c, j);
    AcceptedScan(ss, es, i, c, k);
    AnswerCoversIff(ss[j], m);
    AnswerCoversIff(ss[k], m);
  }

  /** A session's chunk that covers `m` is the accepted one, so the accepted one covers `m`. */
  lemma {:induction false} OwnChunkIsAccepted(ss: seq<State>, es: seq<Step>, i: nat, c: nat, k: nat, n: nat, m: nat)
    requires IsRun(ss, es) && k < i < |ss| && BringsInChunk(ss[k], es[k], n, m) && es[k].chan == c
    ensures c < |ss[i].chans| && ss[i].chans[c].accepted.Some?
    ensures var a := ss[i].chans[c].accepted.value;
      && a.req < |ss[i].chans[c].out.issued| && ss[i].chans[c].out.issued[a.req].GetMessages?
      && m < ss[i].chans[c].out.issued[a.req].start + |a.texts|
  {
    assert |ss| == |es| + 1 && es[k].req < |ss[k].chans[c].out.issued|;
    hide IsRun, Inv, Grows, Apply, Enabled;
    StepOf(ss, es, k);
    StoredIsAccepted(ss[k], es[k]);
    AcceptedStays(ss, es, k + 1, i, c);
    RunGrows(ss, es, k, i);
    IssuedIsKept(ss[k], ss[i], c, es[k].req);
  }

  lemma {:induction false} IssuedIsKept(s: State, t: State, c: nat, k: nat)
    requires Grows(s, t) && c < |s.chans| && k < |s.chans[c].out.issued|
    ensures c < |t.chans| && k < |t.chans[c].out.issued| && t.chans[c].out.issued[k] == s.chans[c].out.issued[k]
  {
    assert SessionGrows(s.chans[c], t.chans[c]);
  }

  /**
   The exact condition.  Connection `id` is registered, but was not in the snapshot of the
   last round of message `m`; its node was never sent `m` on its own and stored no chunk of
   another session that covers it.  Then the node holds `m` if and only if no id below `m`
   was reserved when the answer accepted on this connection was read.
   */
  lemma {:induction false} CatchUpDeliversIff(ss: seq<State>, es: seq<Step>, i: nat, m: nat, id: nat)
    requires IsRun(ss, es) && i < |ss|
    requires m in ss[i].requests && ss[i].requests[m].started && id !in ss[i].requests[m].snapshot
    requires id in ss[i].registry.entries
    requires Attached(ss[i], id) && ss[i].chans[ss[i].conns[id].chan].accepted.Some?
    requires NeverSentSingly(ss, es, i, NodeOf(ss[i], id), m)
    requires NoOtherChunk(ss, es, i, NodeOf(ss[i], id), ss[i].conns[id].chan, m)
    ensures Stored(ss[i], id, m) <==> ReadClean(ss, es, i, ss[i].conns[id].chan, m)
  {
    hide IsRun, Inv, Enabled, SendsSingly, ChunkCovers;
    var s, c, n := ss[i], ss[i].conns[id].chan, NodeOf(ss[i], id);
    RunInv(ss, es, i);
    AskedOrSeen(s, m, id);
    SeenByAnswer(s, id, m);
    if ReadClean(ss, es, i, c, m) {
      CleanReadHolds(ss, es, i, m, id);
      HeldIsStored(s, id, m);
    }
    if Stored(s, id, m) {
      StoredIff(ss, es, i, n, m);
      var k: nat :| k < i && BroughtAt(ss, es, k, n, m);
      assert BringsInChunk(ss[k], es[k], n, m) && es[k].chan == c;
      OwnChunkIsAccepted(ss, es, i, c, k, n, m);
      AcceptedCatchesUp(ss, es, i, c);
      var j: nat :| AcceptedAt(ss, es, i, c, j);
      AcceptedScan(ss, es, i, c, j);
      AnswerCoversIff(ss[j], m);
    }
  }

  /**
   Whenever no round of any request is in flight and no id is reserved, every connection that
   is registered and has caught up, and whose accepted answer was read with no id reserved
   below a message that was not sent to it, belongs to a node that shows exactly the master's
   log.
   */
  lemma {:induction false} QuietLogsAreEqual(ss: seq<State>, es: seq<Step>, i: nat, id: nat)
    requires IsRun(ss, es) && i < |ss|
    requires ss[i].storage.reserved == map[]
    requires forall m :: m in ss[i].requests ==> RoundOver(ss[i].requests[m])
    requires id in ss[i].registry.entries
    requires Attached(ss[i], id) && ss[i].chans[ss[i].conns[id].chan].accepted.Some?
    requires forall m :: m in ss[i].requests && id !in ss[i].requests[m].snapshot ==>
      ReadClean(ss, es, i, ss[i].conns[id].chan, m)
    ensures NodeOf(ss[i], id) < |ss[i].nodes|
    ensures ss[i].nodes[NodeOf(ss[i], id)].store == ss[i].storage.messages
    ensures Chunk(ss[i].nodes[NodeOf(ss[i], id)].store, 0) == Chunk(ss[i].storage.messages, 0)
    ensures |Chunk(ss[i].storage.messages, 0)| == ss[i].storage.next
  {
    hide IsRun, Inv, Chunk, ReadClean;
    RunInv(ss, es, i);
    var s := ss[i];
    StorageValid(s);
    NodeInRange(s, id);
    var store := s.nodes[NodeOf(s, id)].store;
    forall m | m in s.storage.messages ensures m in store {
      Convergence(ss, es, i, m, id);
    }
    assert store.Keys == s.storage.messages.Keys;
    assert store == s.storage.messages;
    WholeLog(s.storage);
  }

  lemma {:induction false} NodeInRange(s: State, id: nat)
    requires Inv(s) && Attached(s, id)
    ensures NodeOf(s, id) < |s.nodes| && SubLog(s.nodes[NodeOf(s, id)].store, s.storage.messages)
  {
    hide Confirmed, CaughtUp, RoundsOk, SubLog;
  }

  lemma {:induction false} WholeLog(s: MasterStorage.Store)
    requires MasterStorage.Valid(s) && s.reserved == map[]
    ensures FirstGap(s.messages) == s.next && |Chunk(s.messages, 0)| == s.next
  {
    assert s.next !in s.messages;
    GapIsUnique(s.messages, 0, s.next);
  }
}
