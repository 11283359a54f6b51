/**
 Facts about every state of every run: the invariant, growth between any two states, and
 where the things a state remembers come from.
 */
module Runs {
  import opened Wrappers
  import opened Logs
  import opened RequestTable
  import opened Protocol
  import opened Growth
  import opened Agreement
  import opened Confirmations
  import opened CatchUp
  import opened Rounds
  import MasterNode
  import SecondaryNode
  import R = AddMessageRequest

  ghost predicate Inv(s: State) {
    WellFormed(s) && Agrees(s) && Confirmed(s) && CaughtUp(s) && RoundsOk(s)
  }

  lemma InitInv()
    ensures Inv(INIT)
  {
  }

  lemma {:induction false} StepInv(s: State, e: Step)
    requires Inv(s) && Enabled(s, e)
    ensures Inv(Apply(s, e)) && Grows(s, Apply(s, e))
  {
    hide WellFormed, Agrees, Confirmed, CaughtUp, RoundsOk, Apply, Grows;
    StepGrows(s, e);
    StepAgrees(s, e);
    StepConfirmed(s, e);
    StepCatchesUp(s, e);
    StepRounds(s, e);
  }

  lemma StepOf(ss: seq<State>, es: seq<Step>, i: nat)
    requires IsRun(ss, es) && i < |es|
    ensures |ss| == |es| + 1 && Enabled(ss[i], es[i]) && ss[i + 1] == Apply(ss[i], es[i])
  {
    var e := es[i];
  }

  /** The invariant holds in every state of every run. */
  lemma {:induction false} RunInv(ss: seq<State>, es: seq<Step>, i: nat)
    requires IsRun(ss, es) && i < |ss|
    ensures Inv(ss[i])
    decreases i
  {
    hide Inv, Apply, Enabled;
    if i == 0 {
      InitInv();
    } else {
      RunInv(ss, es, i - 1);
      StepOf(ss, es, i - 1);
      StepInv(ss[i - 1], es[i - 1]);
    }
  }

  /** Nothing that a state of a run has is lost in a later one. */
  lemma {:induction false} RunGrows(ss: seq<State>, es: seq<Step>, i: nat, j: nat)
    requires IsRun(ss, es) && i <= j < |ss|
    ensures Grows(ss[i], ss[j])
    decreases j
  {
    hide Inv, Apply, Enabled, Grows;
    if i == j {
      GrowsSame(ss[i]);
    } else {
      RunGrows(ss, es, i, j - 1);
      RunInv(ss, es, j - 1);
      StepOf(ss, es, j - 1);
      StepInv(ss[j - 1], es[j - 1]);
      GrowsTransitive(ss[i], ss[j - 1], ss[j]);
    }
  }

  // ---- where the logs in the answers come from ----

  /**
   Step `j`, before `i`, ended the reading of the answer to request `req` of connection `id`:
   these texts, while the master's log was `log`.
   */
  ghost predicate ReadIn(
      ss: seq<State>, es: seq<Step>, i: nat, j: nat, id: nat, req: nat, texts: seq<Message>, log: Log) {
    && j < i && j < |es| && j < |ss| && es[j] == ScanEnds && ss[j].reader.Some?
    && ss[j].reader.value.conn == id && ss[j].reader.value.req == req
    && ss[j].reader.value.scan.texts == texts && ss[j].storage.messages == log
  }

  ghost predicate ReadAt(ss: seq<State>, es: seq<Step>, i: nat, id: nat, req: nat, texts: seq<Message>, log: Log) {
    exists j: nat :: ReadIn(ss, es, i, j, id, req, texts, log)
  }

  ghost predicate FramesRead(ss: seq<State>, es: seq<Step>, i: nat, s: State) {
    forall id, f {:trigger f in s.conns[id].served} ::
      0 <= id < |s.conns| && f in s.conns[id].served && f.reply.Texts? ==>
        ReadAt(ss, es, i, id, f.req, f.reply.texts, f.reply.seen)
  }

  /** Answer `a` to request `k` of session `d` was read for that request of the session's connection. */
  ghost predicate AnswerRead(ss: seq<State>, es: seq<Step>, i: nat, d: Session, k: nat, a: Reply) {
    a.Texts? ==> d.conn.Some? && ReadAt(ss, es, i, d.conn.value, k, a.texts, a.seen)
  }

  ghost predicate AnswersRead(ss: seq<State>, es: seq<Step>, i: nat, s: State) {
    forall c, k {:trigger k in s.chans[c].out.resolved} ::
      0 <= c < |s.chans| && k in s.chans[c].out.resolved && s.chans[c].out.resolved[k].Answer? ==>
        AnswerRead(ss, es, i, s.chans[c], k, s.chans[c].out.resolved[k].value)
  }

  lemma ReadAtLater(ss: seq<State>, es: seq<Step>, i: nat, id: nat, req: nat, texts: seq<Message>, log: Log)
    requires ReadAt(ss, es, i, id, req, texts, log)
    ensures ReadAt(ss, es, i + 1, id, req, texts, log)
  {
    var j: nat :| ReadIn(ss, es, i, j, id, req, texts, log);
    assert ReadIn(ss, es, i + 1, j, id, req, texts, log);
  }

  lemma {:induction false} AnswerReadLater(
      ss: seq<State>, es: seq<Step>, i: nat, d: Session, d': Session, k: nat, a: Reply)
    requires AnswerRead(ss, es, i, d, k, a) && (d.conn.Some? ==> d'.conn == d.conn)
    ensures AnswerRead(ss, es, i + 1, d', k, a)
  {
    hide ReadAt;
    if a.Texts? {
      ReadAtLater(ss, es, i, d.conn.value, k, a.texts, a.seen);
    }
  }

  lemma {:induction false} FramesReadStep(ss: seq<State>, es: seq<Step>, i: nat)
    requires IsRun(ss, es) && i < |es| && Inv(ss[i]) && FramesRead(ss, es, i, ss[i])
    ensures FramesRead(ss, es, i + 1, ss[i + 1])
  {
    hide Inv, Apply, ReadAt, Enabled, IsRun;
    StepOf(ss, es, i);
    var s, e, t := ss[i], es[i], ss[i + 1];
    forall id, f | 0 <= id < |t.conns| && f in t.conns[id].served && f.reply.Texts?
      ensures ReadAt(ss, es, i + 1, id, f.req, f.reply.texts, f.reply.seen)
    {
      if id < |s.conns| && f in s.conns[id].served {
        ReadAtLater(ss, es, i, id, f.req, f.reply.texts, f.reply.seen);
      } else {
        NewFrames(s, e, id, f);
        ReadNow(ss, es, i);
      }
    }
  }

  lemma {:induction false} AnswersReadStep(ss: seq<State>, es: seq<Step>, i: nat)
    requires IsRun(ss, es) && i < |es| && Inv(ss[i])
    requires FramesRead(ss, es, i, ss[i]) && AnswersRead(ss, es, i, ss[i])
    ensures AnswersRead(ss, es, i + 1, ss[i + 1])
  {
    hide Inv, Apply, Grows, ReadAt, Enabled, IsRun;
    StepOf(ss, es, i);
    var s, e, t := ss[i], es[i], ss[i + 1];
    StepInv(s, e);
    forall c, k | 0 <= c < |t.chans| && k in t.chans[c].out.resolved && t.chans[c].out.resolved[k].Answer?
      ensures AnswerRead(ss, es, i + 1, t.chans[c], k, t.chans[c].out.resolved[k].value)
    {
      if c < |s.chans| && k in s.chans[c].out.resolved {
        ResolvedStays(s, t, c, k);
        AnswerReadLater(ss, es, i, s.chans[c], t.chans[c], k, t.chans[c].out.resolved[k].value);
      } else {
        NewAnswers(s, e, c, k);
        assert AnswerRead(ss, es, i, s.chans[c], k, e.frame.reply);
        AnswerReadLater(ss, es, i, s.chans[c], t.chans[c], k, e.frame.reply);
      }
    }
  }

  lemma ResolvedStays(s: State, t: State, c: nat, k: nat)
    requires Grows(s, t) && c < |s.chans| && k in s.chans[c].out.resolved
    ensures c < |t.chans| && k in t.chans[c].out.resolved && t.chans[c].out.resolved[k] == s.chans[c].out.resolved[k]
    ensures s.chans[c].conn.Some? ==> t.chans[c].conn == s.chans[c].conn
  {
    assert SessionGrows(s.chans[c], t.chans[c]);
  }

  lemma ReadNow(ss: seq<State>, es: seq<Step>, i: nat)
    requires i < |es| && |ss| == |es| + 1 && es[i] == ScanEnds && Enabled(ss[i], es[i])
    ensures ss[i].reader.Some?
    ensures var r := ss[i].reader.value; ReadAt(ss, es, i + 1, r.conn, r.req, r.scan.texts, ss[i].storage.messages)
  {
    var r := ss[i].reader.value;
    assert ReadIn(ss, es, i + 1, i, r.conn, r.req, r.scan.texts, ss[i].storage.messages);
  }

  lemma {:induction false} Provenance(ss: seq<State>, es: seq<Step>, i: nat)
    requires IsRun(ss, es) && i < |ss|
    ensures FramesRead(ss, es, i, ss[i]) && AnswersRead(ss, es, i, ss[i])
    decreases i
  {
    hide Inv, Apply, Enabled;
    if i > 0 {
      Provenance(ss, es, i - 1);
      RunInv(ss, es, i - 1);
      FramesReadStep(ss, es, i - 1);
      AnswersReadStep(ss, es, i - 1);
    }
  }

  // ---- a session accepts once ----

  lemma SessionParts(s: State, c: nat)
    requires Inv(s) && c < |s.chans|
    ensures AnswersOk(s) && ChansOk(s) && NodesOk(s)
    ensures GapsOkAt(s, c) && AsksInTurn(s.chans[c]) && AcceptedOkAt(s, c)
    ensures TableOk(s.chans[c].out, s.chans[c].written, s.chans[c].fired)
  {
  }

  lemma {:induction false} AcceptedOnce(s: State, e: Step, c: nat)
    requires Inv(s) && Enabled(s, e) && c < |s.chans| && s.chans[c].accepted.Some?
    ensures c < |Apply(s, e).chans| && Apply(s, e).chans[c].accepted == s.chans[c].accepted
  {
    hide Inv, AfterCallback, R.Start, R.OnReply;
    StepInv(s, e);
    SessionChange(s, e, c);
    if e.SessionCallback? && e.chan == c {
      SessionParts(s, c);
      CallbackCatchesUp(s, c, e.req);
    }
  }

  lemma {:induction false} AcceptedStays(ss: seq<State>, es: seq<Step>, i: nat, j: nat, c: nat)
    requires IsRun(ss, es) && i <= j < |ss| && c < |ss[i].chans| && ss[i].chans[c].accepted.Some?
    ensures c < |ss[j].chans| && ss[j].chans[c].accepted == ss[i].chans[c].accepted
    decreases j
  {
    hide Inv, Apply, Enabled;
    if i < j {
      AcceptedStays(ss, es, i, j - 1, c);
      RunInv(ss, es, j - 1);
      StepOf(ss, es, j - 1);
      AcceptedOnce(ss[j - 1], es[j - 1], c);
    }
  }

  // ---- where snapshots and write concerns come from ----

  /** `members` is what the registry showed in some state up to `i`. */
  ghost predicate WasRegistry(ss: seq<State>, i: nat, members: set<nat>) {
    exists j {:trigger ss[j]} :: 0 <= j <= i && j < |ss| && ss[j].registry.entries.Keys == members
  }

  ghost predicate SnapshotsSeen(ss: seq<State>, i: nat, s: State) {
    forall m {:trigger s.requests[m]} {:trigger m in s.requests} :: m in s.requests ==>
      && (s.requests[m].started ==> WasRegistry(ss, i, s.requests[m].snapshot))
      && (s.requests[m].confirmed.Some? ==> WasRegistry(ss, i, s.requests[m].confirmed.value.among))
  }

  lemma {:induction false} SnapshotsStep(ss: seq<State>, es: seq<Step>, i: nat)
    requires IsRun(ss, es) && i < |es| && Inv(ss[i]) && SnapshotsSeen(ss, i, ss[i])
    ensures SnapshotsSeen(ss, i + 1, ss[i + 1])
  {
    hide Inv, Apply, R.Start, R.OnReply, R.Valid;
    StepOf(ss, es, i);
    var s, e, t := ss[i], es[i], ss[i + 1];
    var members := Some(s.registry.entries.Keys);
    assert WasRegistry(ss, i, members.value);
    forall m | m in t.requests
      ensures t.requests[m].started ==> WasRegistry(ss, i + 1, t.requests[m].snapshot)
      ensures t.requests[m].confirmed.Some? ==> WasRegistry(ss, i + 1, t.requests[m].confirmed.value.among)
    {
      RequestChange(s, e, m);
      if m in s.requests {
        if e.RequestStarts? && m == e.id {
          R.StartRemembers(s.requests[m], members);
        } else if e.RequestCallback? && m == s.conns[e.conn].out.issued[e.req].id {
          CallbackIsOutstanding(s, e.conn, e.req);
          R.OnReplyRemembers(s.requests[m], e.conn, ReplyOf(s.conns[e.conn].out.resolved[e.req]), members);
        }
      }
    }
  }

  lemma {:induction false} CallbackIsOutstanding(s: State, id: nat, i: nat)
    requires Inv(s) && Enabled(s, RequestCallback(id, i))
    ensures var m := s.conns[id].out.issued[i].id;
      m in s.requests && R.Valid(s.requests[m]) && id in s.requests[m].outstanding && s.requests[m].started
  {
    hide R.Valid, WellFormed, Agrees, Confirmed, CaughtUp;
    assert LiveCall(s.conns, id, i);
    StartedWhenOutstanding(s.requests[s.conns[id].out.issued[i].id], id);
  }

  lemma {:induction false} Snapshots(ss: seq<State>, es: seq<Step>, i: nat)
    requires IsRun(ss, es) && i < |ss|
    ensures SnapshotsSeen(ss, i, ss[i])
    decreases i
  {
    hide Inv, Apply, Enabled, WasRegistry;
    if i > 0 {
      Snapshots(ss, es, i - 1);
      RunInv(ss, es, i - 1);
      SnapshotsStep(ss, es, i - 1);
    }
  }

  /** The write concern a request was created with stays, and a message is inserted only once. */
  lemma {:induction false} ConcernStays(ss: seq<State>, es: seq<Step>, k: nat, i: nat)
    requires IsRun(ss, es) && k < i < |ss| && es[k].Inserts?
    ensures es[k].id in ss[i].requests
    ensures ss[i].requests[es[k].id].writeConcern == if es[k].writeConcern <= 1 then 0 else es[k].writeConcern - 1
    decreases i
  {
    hide Inv, Apply, R.Start, R.OnReply, R.Valid;
    var s, e, m := ss[i - 1], es[i - 1], es[k].id;
    StepOf(ss, es, i - 1);
    RunInv(ss, es, i - 1);
    InsertedOnce(s, e);
    if k < i - 1 {
      ConcernStays(ss, es, k, i - 1);
      RequestChange(s, e, m);
      if e.RequestStarts? && m == e.id {
        R.StartRemembers(s.requests[m], Some(s.registry.entries.Keys));
      } else if e.RequestCallback? && m == s.conns[e.conn].out.issued[e.req].id {
        CallbackIsOutstanding(s, e.conn, e.req);
        R.OnReplyRemembers(s.requests[m], e.conn, ReplyOf(s.conns[e.conn].out.resolved[e.req]),
                           Some(s.registry.entries.Keys));
      }
    } else {
      RequestChange(s, e, m);
    }
  }

  lemma {:induction false} InsertedOnce(s: State, e: Step)
    requires Inv(s) && Enabled(s, e)
    ensures s.requests.Keys <= Apply(s, e).requests.Keys
    ensures e.Inserts? ==> e.id !in s.requests && e.id in Apply(s, e).requests
  {
    hide Inv, R.Start, R.OnReply, AfterCallback, Resolve, ResolveAll, IssueAll,
      SecondaryNode.RunSession, MasterNode.Ready;
    if e.Inserts? {
      ReservedIsNew(s, e.id);
    }
  }

  lemma ReservedIsNew(s: State, m: nat)
    requires Inv(s) && m in s.storage.reserved
    ensures m !in s.requests
  {
    hide Agrees, Confirmed, CaughtUp, RoundsOk, ConnsOk, ChansOk, NodesOk;
    assert m !in s.storage.messages;
  }
}
