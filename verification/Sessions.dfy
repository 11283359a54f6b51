/**
 The secondary's side over whole runs: when a node is operational, what a session asks next
 and how its requests end.
 */
module Sessions {
  import opened Wrappers
  import opened Logs
  import opened RequestTable
  import opened Protocol
  import opened Growth
  import opened Agreement
  import opened CatchUp
  import opened Runs
  import MasterStorage
  import MasterNode
  import SecondaryNode
  import SecondaryStorage
  import R = AddMessageRequest

  // ---- operational nodes ----

  /** A node keeps its session and stays operational, or gets a new session, or has none. */
  lemma {:induction false} SessionOfNode(s: State, e: Step, n: nat)
    requires Enabled(s, e) && n < |Apply(s, e).nodes| && Apply(s, e).nodes[n].session.Some?
    ensures n < |s.nodes|
    ensures || (e.SessionRuns? && e.node == n && Apply(s, e).nodes[n].session == Some(|s.chans|))
            || (Apply(s, e).nodes[n].session == s.nodes[n].session
                && (s.nodes[n].operational ==> Apply(s, e).nodes[n].operational))
  {
    hide R.Start, R.OnReply, MasterNode.Ready, FirstGap, SecondaryStorage.InsertAll, Resolve, ResolveAll, IssueAll;
  }

  /** A session's callback with an answer to `getMessages`. */
  ghost predicate Accepts(s: State, e: Step, c: nat) {
    && e.SessionCallback? && e.chan == c && c < |s.chans|
    && e.req < |s.chans[c].out.issued| && s.chans[c].out.issued[e.req].GetMessages?
    && e.req in s.chans[c].out.resolved && s.chans[c].out.resolved[e.req].Answer?
  }

  lemma {:induction false} AcceptanceStep(s: State, e: Step, c: nat)
    requires Inv(s) && Enabled(s, e) && c < |Apply(s, e).chans|
    ensures Apply(s, e).chans[c].accepted.Some? <==>
      (c < |s.chans| && s.chans[c].accepted.Some?) || Accepts(s, e, c)
    ensures Accepts(s, e, c) ==>
      s.chans[c].node < |Apply(s, e).nodes| && Apply(s, e).nodes[s.chans[c].node].operational
  {
    hide Apply, AfterCallback, Inv;
    SessionChange(s, e, c);
    if e.SessionCallback? && e.chan == c {
      if s.chans[c].out.resolved[e.req].Answer? {
        AnswerIsTexts(s, c, e.req);
      }
      CallbackAccepts(s, c, e.req);
    }
  }

  lemma AnswerIsTexts(s: State, c: nat, i: nat)
    requires Inv(s) && c < |s.chans| && i < |s.chans[c].out.issued| && i in s.chans[c].out.resolved
    requires s.chans[c].out.resolved[i].Answer?
    ensures s.chans[c].out.issued[i].GetMessages? <==> s.chans[c].out.resolved[i].value.Texts?
  {
    hide WellFormed, CaughtUp;
    assert AnswerOkAt(s, c, i);
  }

  lemma {:induction false} CallbackAccepts(s: State, c: nat, i: nat)
    requires Enabled(s, SessionCallback(c, i))
    ensures var d, t := s.chans[c], Apply(s, SessionCallback(c, i));
      && |t.nodes| == |s.nodes| && |t.chans| == |s.chans|
      && if d.out.issued[i].GetMessages? && d.out.resolved[i].Answer? && d.out.resolved[i].value.Texts? then
           && t.chans[c].accepted == Some(Acceptance(i, d.out.resolved[i].value.texts, d.out.resolved[i].value.seen))
           && t.nodes[d.node].operational && t.chans[c].out.issued == d.out.issued + [SecondaryNode.NodeReady]
         else
           && t.chans[c].accepted == d.accepted
           && t.nodes[d.node] == s.nodes[d.node]
           && t.chans[c].out.issued == d.out.issued +
                (if d.out.issued[i].GetMessages?
                 then [SecondaryNode.GetMessages(FirstGap(s.nodes[d.node].store))]
                 else if d.out.resolved[i].Answer? then [] else [SecondaryNode.NodeReady])
    ensures var d, t := s.chans[c], Apply(s, SessionCallback(c, i));
      t.chans[c].fired == d.fired + {i} && t.chans[c].out.resolved == d.out.resolved && t.chans[c].node == d.node
  {
    hide FirstGap, SecondaryStorage.InsertAll;
  }

  ghost predicate AcceptedBefore(ss: seq<State>, es: seq<Step>, i: nat, c: nat) {
    exists j: nat {:trigger es[j]} :: j < i && j < |es| && j < |ss| && Accepts(ss[j], es[j], c)
  }

  lemma {:induction false} AcceptedSplit(ss: seq<State>, es: seq<Step>, i: nat, c: nat)
    requires i < |es| && i < |ss|
    ensures AcceptedBefore(ss, es, i + 1, c) <==> AcceptedBefore(ss, es, i, c) || Accepts(ss[i], es[i], c)
  {
    hide Accepts;
  }

  /** A session has accepted an answer exactly when one of its callbacks found one. */
  lemma {:induction false} AcceptedIff(ss: seq<State>, es: seq<Step>, i: nat, c: nat)
    requires IsRun(ss, es) && i < |ss| && c < |ss[i].chans|
    ensures ss[i].chans[c].accepted.Some? <==> AcceptedBefore(ss, es, i, c)
    decreases i
  {
    hide Inv, Apply, Enabled, AcceptedBefore;
    StepOf(ss, es, i - 1);
    RunInv(ss, es, i - 1);
    AcceptanceStep(ss[i - 1], es[i - 1], c);
    AcceptedSplit(ss, es, i - 1, c);
    if c < |ss[i - 1].chans| {
      AcceptedIff(ss, es, i - 1, c);
    } else {
      NothingAcceptedYet(ss, es, i - 1, c);
    }
  }

  lemma {:induction false} NothingAcceptedYet(ss: seq<State>, es: seq<Step>, i: nat, c: nat)
    requires IsRun(ss, es) && i < |ss| && c >= |ss[i].chans|
    ensures !AcceptedBefore(ss, es, i, c)
  {
    hide IsRun;
    forall j: nat | j < i && j < |es| && j < |ss| ensures !Accepts(ss[j], es[j], c) {
      RunGrows(ss, es, j, i);
    }
  }

  /** The node of a present session that has accepted an answer is operational. */
  ghost predicate PresentOk(s: State) {
    forall n {:trigger s.nodes[n]} :: 0 <= n < |s.nodes| && s.nodes[n].session.Some? ==>
      s.nodes[n].session.value < |s.chans| && s.chans[s.nodes[n].session.value].node == n
      && (s.chans[s.nodes[n].session.value].accepted.Some? ==> s.nodes[n].operational)
  }

  lemma {:induction false} PresentStep(s: State, e: Step)
    requires Inv(s) && Enabled(s, e) && PresentOk(s)
    ensures PresentOk(Apply(s, e))
  {
    hide Inv, Apply;
    var t := Apply(s, e);
    StepInv(s, e);
    NodesPart(t);
    forall n | 0 <= n < |t.nodes| && t.nodes[n].session.Some?
      ensures t.nodes[n].session.value < |t.chans| && t.chans[t.nodes[n].session.value].node == n
      ensures t.chans[t.nodes[n].session.value].accepted.Some? ==> t.nodes[n].operational
    {
      var c := t.nodes[n].session.value;
      SessionOfNode(s, e, n);
      AcceptanceStep(s, e, c);
    }
  }

  lemma NodesPart(s: State)
    requires Inv(s)
    ensures NodesOk(s)
  {
  }

  lemma {:induction false} RunPresent(ss: seq<State>, es: seq<Step>, i: nat)
    requires IsRun(ss, es) && i < |ss|
    ensures PresentOk(ss[i])
    decreases i
  {
    hide Inv, Apply, Enabled, PresentOk;
    if i == 0 {
      assert PresentOk(INIT) by { InitPresent(); }
    } else {
      StepOf(ss, es, i - 1);
      RunInv(ss, es, i - 1);
      RunPresent(ss, es, i - 1);
      PresentStep(ss[i - 1], es[i - 1]);
    }
  }

  lemma InitPresent()
    ensures PresentOk(INIT)
  {
  }

  /**
   A node is operational exactly when it has a session and that session has accepted an
   answer, whatever the answer was.
   */
  lemma {:induction false} OperationalNodeIff(ss: seq<State>, es: seq<Step>, i: nat, n: nat)
    requires IsRun(ss, es) && i < |ss| && n < |ss[i].nodes|
    ensures ss[i].nodes[n].operational <==>
      ss[i].nodes[n].session.Some? && AcceptedBefore(ss, es, i, ss[i].nodes[n].session.value)
  {
    hide Inv, IsRun, AcceptedBefore;
    RunPresent(ss, es, i);
    RunInv(ss, es, i);
    OperationalPart(ss[i]);
    if ss[i].nodes[n].session.Some? {
      AcceptedIff(ss, es, i, ss[i].nodes[n].session.value);
    }
  }

  lemma OperationalPart(s: State)
    requires Inv(s)
    ensures OperationalOk(s)
  {
  }

  // ---- what a session asks next ----

  /**
   The callback of request `k` has run and request `k + 1` was its consequence: a failed
   `getMessages` was repeated, an answered one accepted and followed by `NodeReady`, and that
   was repeated because it failed.
   */
  ghost predicate TurnAt(d: Session, k: nat)
    requires k + 1 < |d.out.issued|
  {
    && k in d.fired && k in d.out.resolved
    && match d.out.issued[k]
       case GetMessages(_) =>
         if d.out.resolved[k].Answer? then
           d.accepted.Some? && d.accepted.value.req == k && d.out.issued[k + 1].NodeReady?
         else d.out.issued[k + 1].GetMessages?
       case NodeReady => d.out.resolved[k].Failed? && d.out.issued[k + 1].NodeReady?
  }

  /** Every request of a session but the last has had its turn; it rests only when it was acknowledged. */
  ghost predicate InTurn(d: Session) {
    && d.out.issued != []
    && (forall k: nat {:trigger TurnAt(d, k)} :: k + 1 < |d.out.issued| ==> TurnAt(d, k))
    && (|d.out.issued| - 1 in d.fired ==> Acknowledged(d))
  }

  ghost predicate Acknowledged(d: Session)
    requires d.out.issued != []
  {
    var last := |d.out.issued| - 1;
    last in d.out.resolved && d.out.issued[last].NodeReady? && d.out.resolved[last].Answer?
  }

  lemma {:induction false} InTurnStays(a: Session, b: Session)
    requires InTurn(a) && a.fired <= a.out.resolved.Keys && Later(a.out, b.out)
    requires a.out.issued == b.out.issued && a.accepted == b.accepted && a.fired == b.fired
    ensures InTurn(b)
  {
    forall k: nat | k + 1 < |b.out.issued| ensures TurnAt(b, k) {
      assert TurnAt(a, k);
    }
  }

  lemma {:induction false} CallbackInTurn(s: State, c: nat, i: nat)
    requires Inv(s) && Enabled(s, SessionCallback(c, i)) && InTurn(s.chans[c])
    ensures InTurn(Apply(s, SessionCallback(c, i)).chans[c])
  {
    hide Apply, AfterCallback, Inv, FirstGap;
    SessionParts(s, c);
    CallbackCatchesUp(s, c, i);
    CallbackAccepts(s, c, i);
    if s.chans[c].out.resolved[i].Answer? {
      AnswerIsTexts(s, c, i);
    }
    hide AnswersOk, ChansOk, NodesOk, GapsOkAt, AcceptedOkAt, AcceptedAnswer, Conserved;
    var d, u := s.chans[c], Apply(s, SessionCallback(c, i)).chans[c];
    forall k: nat | k + 1 < |u.out.issued| ensures TurnAt(u, k) {
      assert k + 1 < |d.out.issued| ==> TurnAt(d, k) && u.out.issued[k + 1] == d.out.issued[k + 1];
      assert u.out.issued[k] == d.out.issued[k];
    }
  }

  lemma {:induction false} InTurnStep(s: State, e: Step, c: nat)
    requires Inv(s) && Enabled(s, e) && c < |Apply(s, e).chans|
    requires c < |s.chans| ==> InTurn(s.chans[c])
    ensures InTurn(Apply(s, e).chans[c])
  {
    hide Apply, AfterCallback, Inv, FirstGap, InTurn, Enabled;
    SessionChange(s, e, c);
    if c >= |s.chans| {
      NewInTurn(e.node, SecondaryNode.GetMessages(FirstGap(s.nodes[e.node].store)));
    } else if e.SessionCallback? && e.chan == c {
      CallbackInTurn(s, c, e.req);
    } else {
      StepInv(s, e);
      SessionParts(s, c);
      assert SessionGrows(s.chans[c], Apply(s, e).chans[c]);
      InTurnStays(s.chans[c], Apply(s, e).chans[c]);
    }
  }

  lemma NewInTurn(n: nat, call: SecondaryNode.Call)
    ensures InTurn(NewSession(n, call))
  {
  }

  lemma {:induction false} SessionHistory(ss: seq<State>, es: seq<Step>, i: nat, c: nat)
    requires IsRun(ss, es) && i < |ss| && c < |ss[i].chans|
    ensures InTurn(ss[i].chans[c])
    decreases i
  {
    hide Inv, Apply, Enabled, InTurn;
    StepOf(ss, es, i - 1);
    RunInv(ss, es, i - 1);
    if c < |ss[i - 1].chans| {
      SessionHistory(ss, es, i - 1, c);
    }
    InTurnStep(ss[i - 1], es[i - 1], c);
  }

  /** A session that its node still owns can go on by itself until it is acknowledged. */
  lemma {:induction false} SessionIsNeverStuck(ss: seq<State>, es: seq<Step>, i: nat, c: nat) returns (e: Step)
    requires IsRun(ss, es) && i < |ss| && Alive(ss[i], c)
    ensures ss[i].chans[c].out.issued != []
    ensures var d := ss[i].chans[c]; var last := |d.out.issued| - 1;
      || Acknowledged(d)
      || ((e == SessionFails(c, last) || e == SessionCallback(c, last)) && Enabled(ss[i], e))
  {
    hide IsRun, Inv;
    SessionHistory(ss, es, i, c);
    RunInv(ss, es, i);
    SessionParts(ss[i], c);
    var d := ss[i].chans[c];
    var last := |d.out.issued| - 1;
    assert Conserved(d.out) && last < |d.out.issued|;
    e := if last in d.out.pending then SessionFails(c, last) else SessionCallback(c, last);
  }

  /** Right after step `j` session `c` had sent its request `k`, from the first gap of that moment. */
  ghost predicate AskedFromGap(ss: seq<State>, i: nat, j: nat, c: nat, k: nat, start: nat) {
    && j < i && j + 1 < |ss| && c < |ss[j + 1].chans| && |ss[j + 1].chans[c].out.issued| == k + 1
    && (c < |ss[j].chans| ==> |ss[j].chans[c].out.issued| == k)
    && ss[j + 1].chans[c].node < |ss[j + 1].nodes| && start == FirstGap(StoreOf(ss[j + 1], c))
  }

  lemma {:induction false} NewCallAsks(s: State, e: Step, c: nat, k: nat)
    requires Inv(s) && Enabled(s, e) && c < |Apply(s, e).chans| && k < |Apply(s, e).chans[c].out.issued|
    ensures c < |s.chans| && k < |s.chans[c].out.issued| ==>
      Apply(s, e).chans[c].out.issued[k] == s.chans[c].out.issued[k]
    ensures !(c < |s.chans| && k < |s.chans[c].out.issued|) ==>
      && |Apply(s, e).chans[c].out.issued| == k + 1
      && (c < |s.chans| ==> |s.chans[c].out.issued| == k)
      && Apply(s, e).chans[c].node < |Apply(s, e).nodes|
      && (Apply(s, e).chans[c].out.issued[k].GetMessages? ==>
            Apply(s, e).chans[c].out.issued[k].start == FirstGap(StoreOf(Apply(s, e), c)))
  {
    hide Apply, AfterCallback, Inv, FirstGap, Enabled;
    SessionChange(s, e, c);
    if e.SessionCallback? && c < |s.chans| && e.chan == c {
      CallbackAccepts(s, c, e.req);
      SessionParts(s, c);
    }
  }

  /** Whatever a session asks for starts at what was its node's first gap when it asked. */
  lemma {:induction false} AsksFromItsGap(ss: seq<State>, es: seq<Step>, i: nat, c: nat, k: nat)
    requires IsRun(ss, es) && i < |ss| && c < |ss[i].chans| && k < |ss[i].chans[c].out.issued|
    requires ss[i].chans[c].out.issued[k].GetMessages?
    ensures exists j: nat :: AskedFromGap(ss, i, j, c, k, ss[i].chans[c].out.issued[k].start)
    decreases i
  {
    hide Inv, Apply, Enabled, FirstGap;
    var start := ss[i].chans[c].out.issued[k].start;
    StepOf(ss, es, i - 1);
    RunInv(ss, es, i - 1);
    NewCallAsks(ss[i - 1], es[i - 1], c, k);
    if c < |ss[i - 1].chans| && k < |ss[i - 1].chans[c].out.issued| {
      AsksFromItsGap(ss, es, i - 1, c, k);
      var j: nat :| AskedFromGap(ss, i - 1, j, c, k, start);
      assert AskedFromGap(ss, i, j, c, k, start);
    } else {
      assert AskedFromGap(ss, i, i - 1, c, k, start);
    }
  }

  // ---- how the requests of a session end ----

  /** Step `e` ends request `k` of session `c`, which is pending, with outcome `o`. */
  ghost predicate EndsRequest(s: State, e: Step, c: nat, k: nat, o: Outcome<Reply>) {
    && c < |s.chans| && k in s.chans[c].out.pending && k < |s.chans[c].out.issued|
    && (|| (e == SessionFails(c, k) && o == Failed(TIMEOUT))
        || (e == SessionBreaks(c) && o == Failed(PEER_DISCONNECTED))
        || (e.SessionDelivers? && e.chan == c && e.frame.req == k
            && o == if s.chans[c].out.issued[k].GetMessages? <==> e.frame.reply != Ack
                    then Answer(e.frame.reply) else Failed(BAD_RESPONSE_FRAME)))
  }

  ghost predicate EndsRequests(e: Step) {
    e.SessionFails? || e.SessionBreaks? || e.SessionDelivers?
  }

  lemma {:induction false} RequestsStayOpen(s: State, e: Step, c: nat)
    requires Enabled(s, e) && !EndsRequests(e) && c < |s.chans|
    ensures c < |Apply(s, e).chans| && Apply(s, e).chans[c].out.resolved == s.chans[c].out.resolved
  {
    hide R.Start, R.OnReply, SecondaryNode.OnAddMessage, MasterNode.Ready, Resolve, ResolveAll, FirstGap,
      SecondaryStorage.InsertAll;
  }

  lemma {:induction false} EndingSteps(s: State, e: Step, c: nat)
    requires Enabled(s, e) && EndsRequests(e) && c < |s.chans|
    ensures c < |Apply(s, e).chans|
    ensures Apply(s, e).chans[c].out ==
      if e.chan != c then s.chans[c].out
      else match e
           case SessionFails(_, k) => Resolve(s.chans[c].out, k, Failed(TIMEOUT))
           case SessionDelivers(_, f) =>
             Resolve(s.chans[c].out, f.req, OutcomeOf(Parse(s.chans[c].out.issued[f.req], f.reply)))
           case _ => ResolveAll(s.chans[c].out, PEER_DISCONNECTED)
  {
    hide Resolve, ResolveAll, Parse;
  }

  lemma {:induction false} OutcomeStep(s: State, e: Step, c: nat, k: nat, o: Outcome<Reply>)
    requires Enabled(s, e) && c < |s.chans| && Conserved(s.chans[c].out)
    ensures c < |Apply(s, e).chans|
    ensures (k in Apply(s, e).chans[c].out.resolved && Apply(s, e).chans[c].out.resolved[k] == o) <==>
      (k in s.chans[c].out.resolved && s.chans[c].out.resolved[k] == o) || EndsRequest(s, e, c, k, o)
  {
    hide Apply;
    if EndsRequests(e) {
      EndingSteps(s, e, c);
    } else {
      RequestsStayOpen(s, e, c);
    }
  }

  ghost predicate RequestEndedAt(ss: seq<State>, es: seq<Step>, i: nat, j: nat, c: nat, k: nat, o: Outcome<Reply>) {
    j < i && j < |es| && j < |ss| && EndsRequest(ss[j], es[j], c, k, o)
  }

  ghost predicate RequestEnded(ss: seq<State>, es: seq<Step>, i: nat, c: nat, k: nat, o: Outcome<Reply>) {
    exists j: nat :: RequestEndedAt(ss, es, i, j, c, k, o)
  }

  lemma {:induction false} RequestEndedSplit(
      ss: seq<State>, es: seq<Step>, i: nat, c: nat, k: nat, o: Outcome<Reply>)
    ensures RequestEnded(ss, es, i + 1, c, k, o) <==>
      RequestEnded(ss, es, i, c, k, o) || RequestEndedAt(ss, es, i + 1, i, c, k, o)
  {
    hide EndsRequest;
    var next := i + 1;
    if j: nat :| RequestEndedAt(ss, es, next, j, c, k, o) {
      assert j < i ==> RequestEndedAt(ss, es, i, j, c, k, o);
    }
    if j: nat :| RequestEndedAt(ss, es, i, j, c, k, o) {
      assert RequestEndedAt(ss, es, next, j, c, k, o);
    }
  }

  /**
   A request of a session has outcome `o` exactly when one step ended it so while it was
   pending: its timeout, the loss of the session or the first answer that came, which fails
   it if it is not of its kind.
   */
  lemma {:induction false} RequestOutcomeIff(
      ss: seq<State>, es: seq<Step>, i: nat, c: nat, k: nat, o: Outcome<Reply>)
    requires IsRun(ss, es) && i < |ss| && c < |ss[i].chans|
    ensures (k in ss[i].chans[c].out.resolved && ss[i].chans[c].out.resolved[k] == o) <==>
      RequestEnded(ss, es, i, c, k, o)
    decreases i
  {
    hide Inv, Apply, Enabled, EndsRequest, RequestEnded, Conserved, FirstGap;
    var s, e := ss[i - 1], es[i - 1];
    StepOf(ss, es, i - 1);
    RunInv(ss, es, i - 1);
    RequestEndedSplit(ss, es, i - 1, c, k, o);
    if c < |s.chans| {
      RequestOutcomeIff(ss, es, i - 1, c, k, o);
      TableOfSession(s, c);
      OutcomeStep(s, e, c, k, o);
    } else {
      SessionChange(s, e, c);
      NotEndedBefore(ss, es, i, c, k, o);
    }
  }

  lemma TableOfSession(s: State, c: nat)
    requires Inv(s) && c < |s.chans|
    ensures Conserved(s.chans[c].out)
  {
    hide Inv, Conserved;
    SessionParts(s, c);
  }

  lemma {:induction false} NotEndedBefore(
      ss: seq<State>, es: seq<Step>, i: nat, c: nat, k: nat, o: Outcome<Reply>)
    requires IsRun(ss, es) && 0 < i < |ss| && c >= |ss[i - 1].chans|
    ensures !RequestEnded(ss, es, i, c, k, o)
  {
    hide IsRun;
    forall j: nat ensures !RequestEndedAt(ss, es, i, j, c, k, o) {
      if j < i {
        RunGrows(ss, es, j, i - 1);
      }
    }
  }

  // ---- which session a node has ----

  /** Step `k` gave node `n` session `c`, and since then the node neither got another nor lost it. */
  ghost predicate RunsSince(ss: seq<State>, es: seq<Step>, k: nat, i: nat, n: nat, c: nat) {
    && k < i && k < |es| && k < |ss| && es[k] == SessionRuns(n) && |ss[k].chans| == c
    && forall j {:trigger es[j]} :: k < j < i && j < |es| ==> es[j] != SessionRuns(n) && es[j] != SessionBreaks(c)
  }

  lemma RunNeedsNode(s: State, n: nat)
    ensures Enabled(s, SessionRuns(n)) ==> n < |s.nodes|
  {
  }

  lemma {:induction false} NodeSession(s: State, e: Step, n: nat)
    requires Enabled(s, e) && n < |Apply(s, e).nodes|
    ensures Apply(s, e).nodes[n].session ==
      if n >= |s.nodes| then None
      else if e == SessionRuns(n) then Some(|s.chans|)
      else if e.SessionBreaks? && s.chans[e.chan].node == n then None
      else s.nodes[n].session
  {
    hide R.Start, R.OnReply, MasterNode.Ready, MasterNode.Add, MasterNode.Drop, FirstGap, SecondaryStorage.InsertAll,
      Resolve, ResolveAll, IssueAll, NewConn, NewSession, MasterStorage.Reserve, MasterStorage.Insert;
  }

  lemma {:induction false} PresentSessionStep(s: State, e: Step, n: nat, c: nat)
    requires NodesOk(s) && Enabled(s, e) && n < |Apply(s, e).nodes|
    ensures Apply(s, e).nodes[n].session == Some(c) <==>
      || (e == SessionRuns(n) && c == |s.chans|)
      || (n < |s.nodes| && s.nodes[n].session == Some(c) && e != SessionRuns(n) && e != SessionBreaks(c))
  {
    hide Apply;
    NodeSession(s, e, n);
    RunNeedsNode(s, n);
  }

  lemma {:induction false} PresentSessionIff(ss: seq<State>, es: seq<Step>, i: nat, n: nat, c: nat)
    requires IsRun(ss, es) && i < |ss| && n < |ss[i].nodes|
    ensures ss[i].nodes[n].session == Some(c) <==> exists k: nat :: RunsSince(ss, es, k, i, n, c)
    decreases i
  {
    hide Inv, Apply, Enabled;
    var e := es[i - 1];
    StepOf(ss, es, i - 1);
    RunInv(ss, es, i - 1);
    NodesPart(ss[i - 1]);
    PresentSessionStep(ss[i - 1], e, n, c);
    if n < |ss[i - 1].nodes| {
      PresentSessionIff(ss, es, i - 1, n, c);
    } else {
      NoSessionBefore(ss, es, i, n, c);
    }
    if k: nat :| RunsSince(ss, es, k, i, n, c) {
      assert k < i - 1 ==> RunsSince(ss, es, k, i - 1, n, c);
    }
    if e == SessionRuns(n) && c == |ss[i - 1].chans| {
      assert RunsSince(ss, es, i - 1, i, n, c);
    }
    var before := i - 1;
    if k: nat :| RunsSince(ss, es, k, before, n, c) {
      assert e != SessionRuns(n) && e != SessionBreaks(c) ==> RunsSince(ss, es, k, i, n, c);
    }
  }

  lemma {:induction false} NoSessionBefore(ss: seq<State>, es: seq<Step>, i: nat, n: nat, c: nat)
    requires IsRun(ss, es) && 0 < i < |ss| && n >= |ss[i - 1].nodes|
    ensures forall k: nat :: !RunsSince(ss, es, k, i, n, c)
  {
    forall k: nat ensures !RunsSince(ss, es, k, i, n, c) {
      if RunsSince(ss, es, k, i, n, c) {
        StepOf(ss, es, k);
        RunNeedsNode(ss[k], n);
        hide IsRun;
        RunGrows(ss, es, k, i - 1);
      }
    }
  }
}
