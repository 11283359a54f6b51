/**
 What a state says about the past, exactly: who is registered and operational, what was sent
 to whom and how every call ended.  Each statement has both directions, so each names the
 only steps that bring a thing about, and says that they do.
 */
module History {
  import opened Wrappers
  import opened Logs
  import opened RequestTable
  import opened Protocol
  import opened Growth
  import opened Agreement
  import opened Confirmations
  import opened CatchUp
  import opened Rounds
  import opened Runs
  import MasterNode
  import SecondaryNode
  import R = AddMessageRequest

  // ---- the registry ----

  lemma {:induction false} RegistryStep(s: State, e: Step, id: nat)
    requires Enabled(s, e) && s.registry.counter == |s.conns|
    ensures id in Apply(s, e).registry.entries <==>
      (id in s.registry.entries && e != RegistryDrops(id)) || (e.MasterAccepts? && id == |s.conns|)
    ensures id in Apply(s, e).registry.entries && id < |s.conns| ==> id in s.registry.entries
    ensures id in Apply(s, e).registry.entries && id in s.registry.entries && id < |s.conns| ==>
      (Apply(s, e).registry.entries[id] == MasterNode.OPERATIONAL <==>
        s.registry.entries[id] == MasterNode.OPERATIONAL || (e.MasterGetsReady? && e.conn == id))
    ensures e.MasterAccepts? ==> Apply(s, e).registry.entries[|s.conns|] == MasterNode.REGISTERING
  {
    hide R.Start, R.OnReply, AfterCallback, SecondaryNode.RunSession, Resolve, ResolveAll;
  }

  /** Step `k` registered connection `id`, and none before `i` dropped it. */
  ghost predicate RegisteredSince(ss: seq<State>, es: seq<Step>, k: nat, i: nat, id: nat) {
    && k < i && k < |es| && k < |ss| && es[k].MasterAccepts? && |ss[k].conns| == id
    && forall j {:trigger es[j]} :: k < j < i && j < |es| ==> es[j] != RegistryDrops(id)
  }

  lemma {:induction false} RegisteredIff(ss: seq<State>, es: seq<Step>, i: nat, id: nat)
    requires IsRun(ss, es) && i < |ss|
    ensures id in ss[i].registry.entries <==> exists k: nat :: RegisteredSince(ss, es, k, i, id)
    decreases i
  {
    hide Inv, Apply, Enabled;
    if i > 0 {
      StepOf(ss, es, i - 1);
      RunInv(ss, es, i - 1);
      NumberIsFree(ss[i - 1]);
      RegistryStep(ss[i - 1], es[i - 1], id);
      RegisteredIff(ss, es, i - 1, id);
      if k: nat :| RegisteredSince(ss, es, k, i, id) {
        assert k < i - 1 ==> RegisteredSince(ss, es, k, i - 1, id);
      }
      if id in ss[i].registry.entries {
        if id in ss[i - 1].registry.entries {
          var k: nat :| RegisteredSince(ss, es, k, i - 1, id);
          assert RegisteredSince(ss, es, k, i, id);
        } else {
          assert RegisteredSince(ss, es, i - 1, i, id);
        }
      }
    }
  }

  lemma NumberIsFree(s: State)
    requires Inv(s)
    ensures s.registry.counter == |s.conns|
    ensures forall id :: id in s.registry.entries ==> id < |s.conns|
  {
    hide Agrees, Confirmed, CaughtUp, RoundsOk, ConnsOk, ChansOk, NodesOk;
  }

  /** A ready message of connection `id` was taken before `i`. */
  ghost predicate ReadyCame(es: seq<Step>, i: nat, id: nat) {
    exists j: nat {:trigger es[j]} :: j < i && j < |es| && es[j].MasterGetsReady? && es[j].conn == id
  }

  /** A registered connection is shown as operational exactly when its ready message was taken. */
  lemma {:induction false} OperationalIff(ss: seq<State>, es: seq<Step>, i: nat, id: nat)
    requires IsRun(ss, es) && i < |ss| && id in ss[i].registry.entries
    ensures ss[i].registry.entries[id] == MasterNode.OPERATIONAL <==> ReadyCame(es, i, id)
    decreases i
  {
    hide Inv, Apply, Enabled;
    StepOf(ss, es, i - 1);
    RunInv(ss, es, i - 1);
    NumberIsFree(ss[i - 1]);
    RegistryStep(ss[i - 1], es[i - 1], id);
    if id < |ss[i - 1].conns| {
      OperationalIff(ss, es, i - 1, id);
      assert ReadyCame(es, i, id) <==>
        ReadyCame(es, i - 1, id) || (es[i - 1].MasterGetsReady? && es[i - 1].conn == id);
    } else {
      forall j: nat | j < i && es[j].MasterGetsReady? ensures es[j].conn != id {
        ReadyIsNumbered(ss, es, j, i - 1);
      }
    }
  }

  lemma {:induction false} ReadyIsNumbered(ss: seq<State>, es: seq<Step>, j: nat, i: nat)
    requires IsRun(ss, es) && j < |es| && j <= i < |ss| && es[j].MasterGetsReady?
    ensures es[j].conn < |ss[i].conns|
  {
    StepOf(ss, es, j);
    hide IsRun, Inv, Apply;
    RunGrows(ss, es, j, i);
  }

  // ---- what the master answered ----

  lemma {:induction false} ServedStep(s: State, e: Step, id: nat, f: Frame)
    requires Enabled(s, e) && id < |Apply(s, e).conns|
    ensures f in Apply(s, e).conns[id].served <==>
      || (id < |s.conns| && f in s.conns[id].served)
      || (e == MasterGetsReady(id, f.req) && f.reply == Ack && id in s.registry.entries)
      || (e.ScanEnds? && s.reader.value.conn == id && s.reader.value.req == f.req
          && f.reply == Texts(s.reader.value.scan.texts, s.storage.messages))
  {
    hide R.Start, R.OnReply, AfterCallback, SecondaryNode.RunSession, SecondaryNode.OnAddMessage, Resolve, ResolveAll;
  }

  /** Step `j` acknowledged ready message `req` of connection `id`. */
  ghost predicate AckedAt(ss: seq<State>, es: seq<Step>, i: nat, j: nat, id: nat, req: nat) {
    j < i && j < |es| && j < |ss| && es[j] == MasterGetsReady(id, req) && id in ss[j].registry.entries
  }

  ghost predicate Acked(ss: seq<State>, es: seq<Step>, i: nat, id: nat, req: nat) {
    exists j: nat :: AckedAt(ss, es, i, j, id, req)
  }

  lemma {:induction false} AckedSplit(ss: seq<State>, es: seq<Step>, i: nat, id: nat, req: nat)
    ensures Acked(ss, es, i + 1, id, req) <==> Acked(ss, es, i, id, req) || AckedAt(ss, es, i + 1, i, id, req)
  {
    var next := i + 1;
    if j: nat :| AckedAt(ss, es, next, j, id, req) {
      assert j < i ==> AckedAt(ss, es, i, j, id, req);
    }
    if j: nat :| AckedAt(ss, es, i, j, id, req) {
      assert AckedAt(ss, es, i + 1, j, id, req);
    }
  }

  lemma {:induction false} ReadSplit(
      ss: seq<State>, es: seq<Step>, i: nat, id: nat, req: nat, texts: seq<Message>, log: Log)
    ensures ReadAt(ss, es, i + 1, id, req, texts, log) <==>
      ReadAt(ss, es, i, id, req, texts, log) || ReadIn(ss, es, i + 1, i, id, req, texts, log)
  {
    var next := i + 1;
    if j: nat :| ReadIn(ss, es, next, j, id, req, texts, log) {
      assert j < i ==> ReadIn(ss, es, i, j, id, req, texts, log);
    }
    if j: nat :| ReadIn(ss, es, i, j, id, req, texts, log) {
      assert ReadIn(ss, es, i + 1, j, id, req, texts, log);
    }
  }

  /** Nothing is answered on a connection before it has a number. */
  lemma {:induction false} NothingServedBefore(ss: seq<State>, es: seq<Step>, i: nat, id: nat, f: Frame)
    requires IsRun(ss, es) && i < |ss| && id >= |ss[i].conns|
    ensures !Acked(ss, es, i, id, f.req)
    ensures f.reply != Ack ==> !ReadAt(ss, es, i, id, f.req, f.reply.texts, f.reply.seen)
  {
    hide IsRun;
    forall j: nat ensures !AckedAt(ss, es, i, j, id, f.req) {
      if AckedAt(ss, es, i, j, id, f.req) {
        ReadyIsNumbered(ss, es, j, i);
      }
    }
    if f.reply != Ack {
      forall j: nat ensures !ReadIn(ss, es, i, j, id, f.req, f.reply.texts, f.reply.seen) {
        if ReadIn(ss, es, i, j, id, f.req, f.reply.texts, f.reply.seen) {
          ReadIsNumbered(ss, es, j, i);
        }
      }
    }
  }

  /**
   The master answers a ready message exactly when it takes it from a registered connection,
   and a `getMessages` exactly when it ends reading the chunk for it.
   */
  lemma {:induction false} ServedIff(ss: seq<State>, es: seq<Step>, i: nat, id: nat, f: Frame)
    requires IsRun(ss, es) && i < |ss| && id < |ss[i].conns|
    ensures f in ss[i].conns[id].served <==>
      if f.reply == Ack then Acked(ss, es, i, id, f.req)
      else ReadAt(ss, es, i, id, f.req, f.reply.texts, f.reply.seen)
    decreases i
  {
    hide Inv, Apply, Enabled, Acked, ReadAt;
    StepOf(ss, es, i - 1);
    ServedStep(ss[i - 1], es[i - 1], id, f);
    if id < |ss[i - 1].conns| {
      ServedIff(ss, es, i - 1, id, f);
    } else {
      NothingServedBefore(ss, es, i - 1, id, f);
    }
    hide IsRun;
    if f.reply == Ack {
      AckedSplit(ss, es, i - 1, id, f.req);
    } else {
      ReadSplit(ss, es, i - 1, id, f.req, f.reply.texts, f.reply.seen);
      EndOfRead(ss[i - 1], es[i - 1]);
    }
  }

  lemma EndOfRead(s: State, e: Step)
    requires Enabled(s, e)
    ensures e.ScanEnds? ==> s.reader.Some?
  {
  }

  lemma {:induction false} ReadIsNumbered(ss: seq<State>, es: seq<Step>, j: nat, i: nat)
    requires IsRun(ss, es) && j < i < |ss| && j < |es| && es[j] == ScanEnds
    ensures ss[j].reader.Some? && ss[j].reader.value.conn < |ss[i].conns|
  {
    StepOf(ss, es, j);
    hide IsRun, Inv, Apply;
    RunGrows(ss, es, j, i);
  }

  // ---- whom a round asks ----

  /** Step `e` starts a round of message `m`: its start, its timer or the last callback of its round. */
  ghost predicate StartsRound(s: State, e: Step, m: nat)
    requires Enabled(s, e)
  {
    || (e.RequestStarts? && e.id == m)
    || (e.RequestCallback? && s.conns[e.conn].out.issued[e.req].id == m && s.requests[m].outstanding == {e.conn})
  }

  /** Then connection `id` is asked: it is registered and its answer is missing or an error. */
  ghost predicate Asks(s: State, e: Step, m: nat, id: nat)
    requires Enabled(s, e)
  {
    && StartsRound(s, e, m) && id in s.registry.entries
    && if e.RequestCallback? && id == e.conn then s.conns[id].out.resolved[e.req].Failed?
       else id in s.requests[m].statuses ==> s.requests[m].statuses[id] == R.ERROR
  }

  /** What the requests' own transition asks goes out, and nothing else. */
  lemma {:induction false} StartIssues(s: State, e: Step, id: nat)
    requires Enabled(s, e) && e.RequestStarts? && id < |s.conns|
    ensures Apply(s, e).conns[id].out.issued == s.conns[id].out.issued +
      if id in R.Start(s.requests[e.id], Some(s.registry.entries.Keys)).1
      then [AddCall(e.id, s.storage.messages[e.id])] else []
  {
    hide R.Start;
  }

  lemma {:induction false} CallbackIssues(s: State, e: Step, id: nat)
    requires Enabled(s, e) && e.RequestCallback? && id < |s.conns|
    ensures var m, reply := s.conns[e.conn].out.issued[e.req].id, ReplyOf(s.conns[e.conn].out.resolved[e.req]);
      Apply(s, e).conns[id].out.issued == s.conns[id].out.issued +
        if id in R.OnReply(s.requests[m], e.conn, reply, Some(s.registry.entries.Keys)).1
        then [AddCall(m, s.storage.messages[m])] else []
  {
    hide R.OnReply;
  }

  lemma {:induction false} StartTargets(r: R.Request, members: set<nat>, id: nat)
    requires R.Valid(r) && (!r.started || r.timer)
    ensures id in R.Start(r, Some(members)).1 <==> id in members && R.Owes(r.statuses, id)
  {
    R.ReadyToStart(r);
    R.StartAsks(r, members);
    hide R.Start, R.Valid, R.Settled, R.Owes, R.AllOf, R.Enough;
  }

  lemma {:induction false} CallbackTargets(r: R.Request, from: nat, reply: R.Reply, members: set<nat>, id: nat)
    requires R.Valid(r) && from in r.outstanding
    ensures r.pendingWrites > 0
    ensures id in R.OnReply(r, from, reply, Some(members)).1 <==>
      && r.outstanding == {from} && id in members
      && if id == from then reply == R.FAILED else R.Owes(r.statuses, id)
  {
    hide R.OnReply, R.Valid, R.Enough, R.AllOf;
    var known := R.ReplyAsks(r, from, reply, members);
    assert id == from ==> id in known;
    assert id in known <==> id in r.statuses || id == from;
  }

  lemma {:induction false} StartAsksThem(s: State, e: Step, id: nat)
    requires Inv(s) && Enabled(s, e) && e.RequestStarts? && id < |s.conns|
    ensures Apply(s, e).conns[id].out.issued == s.conns[id].out.issued +
      if Asks(s, e, e.id, id) then [AddCall(e.id, s.storage.messages[e.id])] else []
  {
    hide R.Start, Inv, R.Valid, Apply;
    ValidRequestOf(s, e.id);
    StartIssues(s, e, id);
    StartTargets(s.requests[e.id], s.registry.entries.Keys, id);
  }

  lemma {:induction false} CallbackAsksThem(s: State, e: Step, id: nat)
    requires Inv(s) && Enabled(s, e) && e.RequestCallback? && id < |s.conns|
    ensures var m := s.conns[e.conn].out.issued[e.req].id;
      Apply(s, e).conns[id].out.issued == s.conns[id].out.issued +
      if Asks(s, e, m, id) then [AddCall(m, s.storage.messages[m])] else []
  {
    hide R.OnReply, Inv, R.Valid, Apply;
    var m := s.conns[e.conn].out.issued[e.req].id;
    CallbackIsOutstanding(s, e.conn, e.req);
    CallbackIssues(s, e, id);
    CallbackTargets(s.requests[m], e.conn, ReplyOf(s.conns[e.conn].out.resolved[e.req]),
                    s.registry.entries.Keys, id);
  }

  lemma ValidRequestOf(s: State, m: nat)
    requires Inv(s) && m in s.requests
    ensures R.Valid(s.requests[m])
  {
    hide R.Valid, WellFormed, Agrees, Confirmed, CaughtUp;
  }

  /** A step sends a message on exactly the connections that the round it starts asks. */
  lemma {:induction false} StepAsks(s: State, e: Step, id: nat)
    requires Inv(s) && Enabled(s, e) && id < |s.conns|
    ensures id < |Apply(s, e).conns|
    ensures forall m: nat :: Asks(s, e, m, id) ==> m in s.storage.messages
    ensures forall m: nat :: Asks(s, e, m, id) ==>
      Apply(s, e).conns[id].out.issued == s.conns[id].out.issued + [AddCall(m, s.storage.messages[m])]
    ensures (forall m: nat :: !Asks(s, e, m, id)) ==> Apply(s, e).conns[id].out.issued == s.conns[id].out.issued
  {
    hide Inv, Apply;
    if e.RequestStarts? {
      StartAsksThem(s, e, id);
    } else if e.RequestCallback? {
      CallbackAsksThem(s, e, id);
    } else {
      OtherStepsOnConns(s, e);
    }
    ConnCount(s, e);
  }

  /** Step `j` asked connection `id` for message `m`, by its call number `k`. */
  ghost predicate AskedAt(ss: seq<State>, es: seq<Step>, i: nat, j: nat, m: nat, id: nat, k: nat) {
    && j < i && j < |es| && j < |ss| && Enabled(ss[j], es[j]) && Asks(ss[j], es[j], m, id)
    && id < |ss[j].conns| && |ss[j].conns[id].out.issued| == k
  }

  ghost predicate Asked(ss: seq<State>, es: seq<Step>, i: nat, m: nat, id: nat, k: nat) {
    exists j: nat :: AskedAt(ss, es, i, j, m, id, k)
  }

  lemma {:induction false} AskedSplit(ss: seq<State>, es: seq<Step>, i: nat, m: nat, id: nat, k: nat)
    ensures Asked(ss, es, i + 1, m, id, k) <==> Asked(ss, es, i, m, id, k) || AskedAt(ss, es, i + 1, i, m, id, k)
  {
    hide Enabled, Asks;
    var next := i + 1;
    if j: nat :| AskedAt(ss, es, next, j, m, id, k) {
      assert j < i ==> AskedAt(ss, es, i, j, m, id, k);
    }
    if j: nat :| AskedAt(ss, es, i, j, m, id, k) {
      assert AskedAt(ss, es, next, j, m, id, k);
    }
  }

  /**
   The calls of a connection are exactly those of the rounds that asked it, in their order:
   every round asks every registered connection that owes an answer, and no other.
   */
  lemma {:induction false} AskedIff(ss: seq<State>, es: seq<Step>, i: nat, m: nat, id: nat, k: nat)
    requires IsRun(ss, es) && i < |ss|
    ensures (id < |ss[i].conns| && k < |ss[i].conns[id].out.issued| && ss[i].conns[id].out.issued[k].id == m) <==>
      Asked(ss, es, i, m, id, k)
    decreases i
  {
    hide Inv, Apply, Enabled, Asks, Asked;
    if i == 0 {
      assert !Asked(ss, es, 0, m, id, k) by { NobodyAsked(ss, es, m, id, k); }
    } else {
      var s, e := ss[i - 1], es[i - 1];
      StepOf(ss, es, i - 1);
      RunInv(ss, es, i - 1);
      AskedIff(ss, es, i - 1, m, id, k);
      AskedSplit(ss, es, i - 1, m, id, k);
      hide IsRun;
      ConnCount(s, e);
      if id < |s.conns| {
        StepAsks(s, e, id);
        OneRound(s, e, id);
      } else if id < |ss[i].conns| {
        NewConnIsEmpty(s, e, id);
      }
    }
  }

  lemma NobodyAsked(ss: seq<State>, es: seq<Step>, m: nat, id: nat, k: nat)
    ensures !Asked(ss, es, 0, m, id, k)
  {
  }

  /** A step starts one round at most. */
  lemma OneRound(s: State, e: Step, id: nat)
    requires Enabled(s, e)
    ensures forall m: nat, n: nat :: Asks(s, e, m, id) && Asks(s, e, n, id) ==> m == n
  {
  }

  lemma NewConnIsEmpty(s: State, e: Step, id: nat)
    requires Enabled(s, e) && |s.conns| <= id < |Apply(s, e).conns|
    ensures Apply(s, e).conns[id].out.issued == []
  {
    ConnCount(s, e);
    AcceptOnConns(s, e);
  }

  // ---- how the calls of a connection end ----

  lemma {:induction false} RepliesStep(s: State, e: Step, id: nat, k: nat, status: AddStatus)
    requires Enabled(s, e) && id < |Apply(s, e).conns|
    ensures (k, status) in Apply(s, e).conns[id].replies <==>
      || (id < |s.conns| && (k, status) in s.conns[id].replies)
      || (e == SessionGetsAdd(id, k) && status == OK)
  {
    hide R.Start, R.OnReply, AfterCallback, SecondaryNode.RunSession, SecondaryNode.OnAddMessage,
      MasterNode.Ready, Resolve, ResolveAll;
  }

  /** A secondary answers every message it gets, and always with `OK`. */
  lemma {:induction false} RepliesIff(ss: seq<State>, es: seq<Step>, i: nat, id: nat, k: nat, status: AddStatus)
    requires IsRun(ss, es) && i < |ss| && id < |ss[i].conns|
    ensures (k, status) in ss[i].conns[id].replies <==> status == OK && SessionGetsAdd(id, k) in es[..i]
    decreases i
  {
    hide Inv, Apply, Enabled;
    StepOf(ss, es, i - 1);
    RepliesStep(ss[i - 1], es[i - 1], id, k, status);
    assert es[..i] == es[..i - 1] + [es[i - 1]];
    if id < |ss[i - 1].conns| {
      RepliesIff(ss, es, i - 1, id, k, status);
    } else {
      NumberedFirst(ss, es, i - 1, id, k);
    }
  }

  /** A step about a connection comes after its registration. */
  lemma {:induction false} NumberedFirst(ss: seq<State>, es: seq<Step>, i: nat, id: nat, k: nat)
    requires IsRun(ss, es) && i < |ss| && id >= |ss[i].conns|
    ensures SessionGetsAdd(id, k) !in es[..i]
  {
    if SessionGetsAdd(id, k) in es[..i] {
      var j :| 0 <= j < i && es[j] == SessionGetsAdd(id, k);
      StepOf(ss, es, j);
      GetsIsNumbered(ss[j], es[j]);
      hide IsRun;
      ConnsGrow(ss, es, j, i);
    }
  }

  lemma GetsIsNumbered(s: State, e: Step)
    requires Enabled(s, e) && e.SessionGetsAdd?
    ensures e.conn < |s.conns|
  {
  }

  lemma ConnsGrow(ss: seq<State>, es: seq<Step>, i: nat, j: nat)
    requires IsRun(ss, es) && i <= j < |ss|
    ensures |ss[i].conns| <= |ss[j].conns|
  {
    hide IsRun;
    RunGrows(ss, es, i, j);
  }

  /** Step `e` ends call `k` of connection `id`, which is pending, with outcome `o`. */
  ghost predicate EndsCall(s: State, e: Step, id: nat, k: nat, o: Outcome<AddStatus>) {
    && id < |s.conns| && k in s.conns[id].out.pending
    && ((e == ConnFails(id, k) && o == Failed(TIMEOUT))
        || (e == ConnBreaks(id) && o == Failed(PEER_DISCONNECTED))
        || (e.ConnGetsReply? && e.conn == id && e.req == k && o == Answer(e.status)))
  }

  /** Three steps end calls of a connection. */
  ghost predicate EndsCalls(e: Step) {
    e.ConnFails? || e.ConnBreaks? || e.ConnGetsReply?
  }

  lemma {:induction false} OutcomesStay(s: State, e: Step, id: nat)
    requires Enabled(s, e) && !EndsCalls(e) && id < |s.conns|
    ensures id < |Apply(s, e).conns| && Apply(s, e).conns[id].out.resolved == s.conns[id].out.resolved
  {
    hide R.Start, R.OnReply, AfterCallback, SecondaryNode.RunSession, SecondaryNode.OnAddMessage, MasterNode.Ready,
      Resolve, ResolveAll;
  }

  lemma {:induction false} EndingSteps(s: State, e: Step, id: nat)
    requires Enabled(s, e) && EndsCalls(e) && id < |s.conns|
    ensures id < |Apply(s, e).conns|
    ensures Apply(s, e).conns[id].out ==
      if e.conn != id then s.conns[id].out
      else match e
           case ConnFails(_, k) => Resolve(s.conns[id].out, k, Failed(TIMEOUT))
           case ConnGetsReply(_, k, status) => Resolve(s.conns[id].out, k, Answer(status))
           case _ => ResolveAll(s.conns[id].out, PEER_DISCONNECTED)
  {
    hide Resolve, ResolveAll;
  }

  lemma {:induction false} OutcomeStep(s: State, e: Step, id: nat, k: nat, o: Outcome<AddStatus>)
    requires Enabled(s, e) && id < |s.conns| && Conserved(s.conns[id].out)
    ensures id < |Apply(s, e).conns|
    ensures (k in Apply(s, e).conns[id].out.resolved && Apply(s, e).conns[id].out.resolved[k] == o) <==>
      (k in s.conns[id].out.resolved && s.conns[id].out.resolved[k] == o) || EndsCall(s, e, id, k, o)
  {
    hide Apply, Enabled;
    if EndsCalls(e) {
      EndingSteps(s, e, id);
    } else {
      OutcomesStay(s, e, id);
    }
  }

  ghost predicate CallEndedAt(
      ss: seq<State>, es: seq<Step>, i: nat, j: nat, id: nat, k: nat, o: Outcome<AddStatus>) {
    j < i && j < |es| && j < |ss| && EndsCall(ss[j], es[j], id, k, o)
  }

  ghost predicate CallEnded(ss: seq<State>, es: seq<Step>, i: nat, id: nat, k: nat, o: Outcome<AddStatus>) {
    exists j: nat :: CallEndedAt(ss, es, i, j, id, k, o)
  }

  lemma {:induction false} CallEndedSplit(
      ss: seq<State>, es: seq<Step>, i: nat, id: nat, k: nat, o: Outcome<AddStatus>)
    ensures CallEnded(ss, es, i + 1, id, k, o) <==>
      CallEnded(ss, es, i, id, k, o) || CallEndedAt(ss, es, i + 1, i, id, k, o)
  {
    hide EndsCall;
    var next := i + 1;
    if j: nat :| CallEndedAt(ss, es, next, j, id, k, o) {
      assert j < i ==> CallEndedAt(ss, es, i, j, id, k, o);
    }
    if j: nat :| CallEndedAt(ss, es, i, j, id, k, o) {
      assert CallEndedAt(ss, es, next, j, id, k, o);
    }
  }

  /**
   A call has outcome `o` exactly when one step ended it so while it was pending: its timeout,
   the loss of its connection or the first reply that came.
   */
  lemma {:induction false} OutcomeIff(
      ss: seq<State>, es: seq<Step>, i: nat, id: nat, k: nat, o: Outcome<AddStatus>)
    requires IsRun(ss, es) && i < |ss| && id < |ss[i].conns|
    ensures (k in ss[i].conns[id].out.resolved && ss[i].conns[id].out.resolved[k] == o) <==>
      CallEnded(ss, es, i, id, k, o)
    decreases i
  {
    hide Inv, Apply, Enabled, EndsCall, CallEnded, Conserved;
    var s, e := ss[i - 1], es[i - 1];
    StepOf(ss, es, i - 1);
    RunInv(ss, es, i - 1);
    CallEndedSplit(ss, es, i - 1, id, k, o);
    if id < |s.conns| {
      OutcomeIff(ss, es, i - 1, id, k, o);
      TableOfConn(s, id);
      OutcomeStep(s, e, id, k, o);
    } else {
      NewConnIsOpen(s, e, id, k);
      NotEndedBefore(ss, es, i, id, k, o);
    }
  }

  lemma TableOfConn(s: State, id: nat)
    requires Inv(s) && id < |s.conns|
    ensures Conserved(s.conns[id].out)
  {
    hide Agrees, Confirmed, CaughtUp, RoundsOk, Conserved;
    assert TableOk(s.conns[id].out, s.conns[id].written, s.conns[id].fired);
  }

  lemma NewConnIsOpen(s: State, e: Step, id: nat, k: nat)
    requires Enabled(s, e) && |s.conns| <= id < |Apply(s, e).conns|
    ensures k !in Apply(s, e).conns[id].out.resolved
  {
    ConnCount(s, e);
    AcceptOnConns(s, e);
  }

  lemma {:induction false} NotEndedBefore(
      ss: seq<State>, es: seq<Step>, i: nat, id: nat, k: nat, o: Outcome<AddStatus>)
    requires IsRun(ss, es) && 0 < i < |ss| && id >= |ss[i - 1].conns|
    ensures !CallEnded(ss, es, i, id, k, o)
  {
    hide IsRun;
    forall j: nat ensures !CallEndedAt(ss, es, i, j, id, k, o) {
      if j < i {
        ConnsGrow(ss, es, j, i - 1);
      }
    }
  }

  // ---- the log ----

  lemma {:induction false} LogStep(s: State, e: Step, m: nat)
    requires Enabled(s, e)
    ensures m in Apply(s, e).storage.messages <==> m in s.storage.messages || (e.Inserts? && e.id == m)
    ensures m in s.storage.messages && !(e.Inserts? && e.id == m) ==>
      Apply(s, e).storage.messages[m] == s.storage.messages[m]
    ensures e.Inserts? && e.id == m ==>
      m in s.storage.reserved && Apply(s, e).storage.messages[m] == s.storage.reserved[m]
    ensures m in Apply(s, e).storage.reserved ==>
      if e.Reserves? && m == s.storage.next then Apply(s, e).storage.reserved[m] == e.text
      else m in s.storage.reserved && Apply(s, e).storage.reserved[m] == s.storage.reserved[m]
  {
    hide R.Start, R.OnReply, AfterCallback, SecondaryNode.RunSession, SecondaryNode.OnAddMessage, Resolve, ResolveAll,
      IssueAll, MasterNode.Ready, MasterNode.Add, MasterNode.Drop, SecondaryNode.Disconnect, NewConn, NewSession;
  }

  /** Step `k` took id `m` for `text`. */
  ghost predicate TakenAt(ss: seq<State>, es: seq<Step>, i: nat, k: nat, m: nat, text: Message) {
    k < i && k < |es| && k < |ss| && es[k] == Reserves(text) && ss[k].storage.next == m
  }

  ghost predicate Taken(ss: seq<State>, es: seq<Step>, i: nat, m: nat, text: Message) {
    exists k: nat :: TakenAt(ss, es, i, k, m, text)
  }

  lemma {:induction false} TakenLater(ss: seq<State>, es: seq<Step>, i: nat, m: nat)
    ensures forall text :: Taken(ss, es, i, m, text) ==> Taken(ss, es, i + 1, m, text)
  {
    forall text | Taken(ss, es, i, m, text) ensures Taken(ss, es, i + 1, m, text) {
      var k: nat :| TakenAt(ss, es, i, k, m, text);
      assert TakenAt(ss, es, i + 1, k, m, text);
    }
  }

  ghost predicate InsertedBefore(es: seq<Step>, i: nat, m: nat) {
    exists j: nat {:trigger es[j]} :: j < i && j < |es| && es[j].Inserts? && es[j].id == m
  }

  /**
   The log holds exactly the messages whose insertion happened, each with the text its id was
   taken for.
   */
  lemma {:induction false} LogIff(ss: seq<State>, es: seq<Step>, i: nat, m: nat)
    requires IsRun(ss, es) && i < |ss|
    ensures m in ss[i].storage.messages <==> InsertedBefore(es, i, m)
    ensures m in ss[i].storage.messages ==> Taken(ss, es, i, m, ss[i].storage.messages[m])
    ensures m in ss[i].storage.reserved ==> Taken(ss, es, i, m, ss[i].storage.reserved[m])
    decreases i
  {
    hide Inv, Apply, Enabled;
    if i > 0 {
      var s, e, t := ss[i - 1], es[i - 1], ss[i];
      StepOf(ss, es, i - 1);
      LogIff(ss, es, i - 1, m);
      LogStep(s, e, m);
      RunInv(ss, es, i - 1);
      assert InsertedBefore(es, i, m) <==> InsertedBefore(es, i - 1, m) || (e.Inserts? && e.id == m);
      TakenLater(ss, es, i - 1, m);
      if e.Reserves? && m == s.storage.next {
        assert TakenAt(ss, es, i, i - 1, m, e.text);
      }
    }
  }
}
