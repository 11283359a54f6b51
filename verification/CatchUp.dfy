/**
 How a session catches up.  It asks, one request at a time, until an answer is accepted, and
 then announces itself; so being operational, on either side, means that the store reaches
 at least as far as the master's log did when that answer was read.
 */
module CatchUp {
  import opened Wrappers
  import opened Logs
  import opened RequestTable
  import opened Protocol
  import opened Growth
  import opened Agreement
  import MasterNode
  import SecondaryNode
  import SecondaryStorage
  import R = AddMessageRequest

  ghost function StoreOf(s: State, c: nat): Log
    requires c < |s.chans| && s.chans[c].node < |s.nodes|
  {
    s.nodes[s.chans[c].node].store
  }

  /** No request asks for more than what its node's store reaches by now. */
  ghost predicate GapsOkAt(s: State, c: nat)
    requires c < |s.chans|
  {
    s.chans[c].node < |s.nodes| &&
    forall i {:trigger s.chans[c].out.issued[i]} :: 0 <= i < |s.chans[c].out.issued| ==>
      s.chans[c].out.issued[i].GetMessages? ==> s.chans[c].out.issued[i].start <= FirstGap(StoreOf(s, c))
  }

  /**
   All callbacks but the one of the latest request have run.  Before acceptance that one is
   a `GetMessages`; `NodeReady` is sent after it only.
   */
  ghost predicate AsksInTurn(d: Session) {
    && |d.out.issued| > 0
    && (forall i {:trigger i in d.fired} :: 0 <= i < |d.out.issued| - 1 ==> i in d.fired)
    && (d.accepted.None? ==> |d.out.issued| - 1 !in d.fired)
    && (d.accepted.Some? ==> d.out.issued[|d.out.issued| - 1].NodeReady?)
    && (forall i {:trigger d.out.issued[i]} ::
          0 <= i < |d.out.issued| && d.out.issued[i].NodeReady? ==> d.accepted.Some?)
  }

  /** The accepted chunk is what the request it names was answered. */
  ghost predicate AcceptedAnswer(d: Session) {
    d.accepted.Some? ==>
      && d.accepted.value.req < |d.out.issued| && d.out.issued[d.accepted.value.req].GetMessages?
      && d.accepted.value.req in d.out.resolved
      && d.out.resolved[d.accepted.value.req] == Answer(Texts(d.accepted.value.texts, d.accepted.value.seen))
  }

  ghost predicate AcceptedOkAt(s: State, c: nat)
    requires c < |s.chans|
  {
    && AcceptedAnswer(s.chans[c])
    && (s.chans[c].accepted.Some? ==>
      && s.chans[c].conn.Some? && s.chans[c].conn.value < |s.conns| && s.chans[c].node < |s.nodes|
      && SubLog(s.conns[s.chans[c].conn.value].regSeen, s.chans[c].accepted.value.seen)
      && SubLog(s.chans[c].accepted.value.seen, s.storage.messages)
      && FirstGap(s.chans[c].accepted.value.seen) <= FirstGap(StoreOf(s, c)))
  }

  ghost predicate SessionsOk(s: State) {
    forall c {:trigger s.chans[c]} :: 0 <= c < |s.chans| ==>
      GapsOkAt(s, c) && AsksInTurn(s.chans[c]) && AcceptedOkAt(s, c)
  }

  /** A node that is operational owes it to the session it has. */
  ghost predicate OperationalOk(s: State) {
    forall n {:trigger s.nodes[n]} :: 0 <= n < |s.nodes| && s.nodes[n].operational ==>
      && s.nodes[n].session.Some? && s.nodes[n].session.value < |s.chans|
      && s.chans[s.nodes[n].session.value].accepted.Some?
  }

  ghost predicate RegistryOk(s: State) {
    forall id {:trigger s.registry.entries[id]} {:trigger id in s.registry.entries} ::
      id in s.registry.entries && s.registry.entries[id] == MasterNode.OPERATIONAL ==>
        Attached(s, id) && s.chans[s.conns[id].chan].accepted.Some?
  }

  ghost predicate CaughtUp(s: State) {
    SessionsOk(s) && OperationalOk(s) && RegistryOk(s)
  }

  // ---- preservation ----

  lemma AcceptedAnswerStays(d: Session, d': Session)
    requires AcceptedAnswer(d) && SessionGrows(d, d')
    requires d'.out.issued == d.out.issued && d'.accepted == d.accepted
    ensures AcceptedAnswer(d')
  {
  }

  lemma {:induction false} SessionStays(s: State, t: State, c: nat)
    requires Grows(s, t) && c < |s.chans| && GapsOkAt(s, c) && AcceptedOkAt(s, c)
    requires t.chans[c].out.issued == s.chans[c].out.issued && t.chans[c].accepted == s.chans[c].accepted
    ensures GapsOkAt(t, c) && AcceptedOkAt(t, c)
  {
    hide Later, Conserved, FirstGap, SubLog;
    assert SessionGrows(s.chans[c], t.chans[c]);
    AcceptedAnswerStays(s.chans[c], t.chans[c]);
    SubLogPrefix(StoreOf(s, c), StoreOf(t, c));
    if s.chans[c].accepted.Some? {
      assert ConnGrows(s.conns[s.chans[c].conn.value], t.conns[s.chans[c].conn.value]);
      SubLogTransitive(s.chans[c].accepted.value.seen, s.storage.messages, t.storage.messages);
    }
  }

  /** Only a callback, or the start of the session, changes what a session asks and accepts. */
  lemma {:induction false} SessionChange(s: State, e: Step, c: nat)
    requires Enabled(s, e) && c < |Apply(s, e).chans|
    ensures (c < |s.chans| && !(e.SessionCallback? && e.chan == c)) ==>
      && Apply(s, e).chans[c].out.issued == s.chans[c].out.issued
      && Apply(s, e).chans[c].accepted == s.chans[c].accepted
      && Apply(s, e).chans[c].fired == s.chans[c].fired
    ensures c >= |s.chans| ==>
      && e.SessionRuns? && c == |s.chans| && e.node < |s.nodes|
      && Apply(s, e).chans[c] == NewSession(e.node, SecondaryNode.GetMessages(FirstGap(s.nodes[e.node].store)))
      && |Apply(s, e).nodes| == |s.nodes| && Apply(s, e).nodes[e.node].store == s.nodes[e.node].store
  {
    hide R.Start, R.OnReply, AfterCallback, MasterNode.Ready, Conserved, FirstGap;
  }

  lemma {:induction false} NewSessionOk(s: State, t: State, c: nat, n: nat)
    requires c < |t.chans| && n < |t.nodes|
    requires t.chans[c] == NewSession(n, SecondaryNode.GetMessages(FirstGap(t.nodes[n].store)))
    ensures GapsOkAt(t, c) && AsksInTurn(t.chans[c]) && AcceptedOkAt(t, c)
  {
  }

  /**
   The callback that runs is the latest request's.  A chunk it stores begins at or below the
   first gap, so the store then covers it, and with it all that was gap-free at the master.
   */
  lemma {:induction false} CallbackCatchesUp(s: State, c: nat, i: nat)
    requires AnswersOk(s) && Enabled(s, SessionCallback(c, i))
    requires TableOk(s.chans[c].out, s.chans[c].written, s.chans[c].fired)
    requires GapsOkAt(s, c) && AsksInTurn(s.chans[c]) && AcceptedOkAt(s, c)
    ensures i == |s.chans[c].out.issued| - 1
    ensures var (d, n) := AfterCallback(s.chans[c], s.nodes[s.chans[c].node], i);
      && AsksInTurn(d) && d.node == s.chans[c].node && d.conn == s.chans[c].conn
      && FirstGap(s.nodes[s.chans[c].node].store) <= FirstGap(n.store)
      && (forall k :: 0 <= k < |d.out.issued| && d.out.issued[k].GetMessages? ==>
            d.out.issued[k].start <= FirstGap(n.store))
      && (d.accepted != s.chans[c].accepted ==>
            && s.chans[c].accepted.None?
            && d.accepted.Some? && d.conn.Some? && d.conn.value < |s.conns|
            && SubLog(s.conns[d.conn.value].regSeen, d.accepted.value.seen)
            && SubLog(d.accepted.value.seen, s.storage.messages)
            && FirstGap(d.accepted.value.seen) <= FirstGap(n.store))
      && AcceptedAnswer(d)
  {
    hide SubLog, FirstGap, SecondaryStorage.InsertAll;
    var d, n := s.chans[c], s.nodes[s.chans[c].node];
    var (d', n') := AfterCallback(d, n, i);
    assert AnswerOkAt(s, c, i);
    assert i == |d.out.issued| - 1;
    if d.out.issued[i].GetMessages? && d.out.resolved[i].Answer? && d.out.resolved[i].value.Texts? {
      SecondaryStorage.BatchExtendsPrefix(n.store, d.out.issued[i].start, d.out.resolved[i].value.texts);
    }
    forall k | 0 <= k < |d'.out.issued| && d'.out.issued[k].GetMessages?
      ensures d'.out.issued[k].start <= FirstGap(n'.store)
    {
      if k < |d.out.issued| {
        assert d'.out.issued[k] == d.out.issued[k];
      }
    }
  }

  lemma {:induction false} SessionsKeep(s: State, e: Step)
    requires ChansOk(s) && AnswersOk(s) && SessionsOk(s) && Enabled(s, e) && Grows(s, Apply(s, e))
    ensures SessionsOk(Apply(s, e))
  {
    hide Grows, Apply, GapsOkAt, AsksInTurn, AcceptedOkAt, FirstGap;
    var t := Apply(s, e);
    forall c | 0 <= c < |t.chans| ensures GapsOkAt(t, c) && AsksInTurn(t.chans[c]) && AcceptedOkAt(t, c) {
      SessionChange(s, e, c);
      if c >= |s.chans| {
        NewSessionOk(s, t, c, e.node);
      } else if e.SessionCallback? && e.chan == c {
        SessionCallbackKeeps(s, e);
      } else {
        SessionStays(s, t, c);
        AsksInTurnFields(s.chans[c], t.chans[c]);
      }
    }
  }

  lemma AsksInTurnFields(a: Session, b: Session)
    requires AsksInTurn(a)
    requires a.out.issued == b.out.issued && a.accepted == b.accepted && a.fired == b.fired
    ensures AsksInTurn(b)
  {
  }

  lemma {:induction false} SessionCallbackKeeps(s: State, e: Step)
    requires ChansOk(s) && AnswersOk(s) && SessionsOk(s) && Enabled(s, e) && e.SessionCallback? && Grows(s, Apply(s, e))
    ensures GapsOkAt(Apply(s, e), e.chan) && AsksInTurn(Apply(s, e).chans[e.chan]) && AcceptedOkAt(Apply(s, e), e.chan)
  {
    hide AfterCallback, Grows, FirstGap, SubLog, AsksInTurn;
    CallbackCatchesUp(s, e.chan, e.req);
  }

  /** A node becomes operational in the callback that accepts its session's chunk, and stops being so with it. */
  lemma {:induction false} OperationalChange(s: State, e: Step, n: nat)
    requires Enabled(s, e) && n < |Apply(s, e).nodes| && Apply(s, e).nodes[n].operational
    ensures n < |s.nodes|
    ensures s.nodes[n].operational ==> Apply(s, e).nodes[n].session == s.nodes[n].session
    ensures !s.nodes[n].operational ==>
      && e.SessionCallback? && e.chan < |s.chans| && s.nodes[n].session == Some(e.chan)
      && Apply(s, e).nodes[n].session == Some(e.chan)
      && |Apply(s, e).chans| == |s.chans| && Apply(s, e).chans[e.chan].accepted.Some?
  {
    hide R.Start, R.OnReply, MasterNode.Ready, Conserved, FirstGap, SecondaryStorage.InsertAll, Resolve, ResolveAll;
  }

  lemma {:induction false} OperationalKeep(s: State, e: Step)
    requires OperationalOk(s) && Enabled(s, e) && Grows(s, Apply(s, e))
    ensures OperationalOk(Apply(s, e))
  {
    hide Apply, SubLog, Later;
    var t := Apply(s, e);
    forall n | 0 <= n < |t.nodes| && t.nodes[n].operational
      ensures t.nodes[n].session.Some? && t.nodes[n].session.value < |t.chans|
      ensures t.chans[t.nodes[n].session.value].accepted.Some?
    {
      OperationalChange(s, e, n);
      if s.nodes[n].operational {
        var c := s.nodes[n].session.value;
        assert SessionGrows(s.chans[c], t.chans[c]);
      }
    }
  }

  lemma {:induction false} NewlyOperational(s: State, e: Step, id: nat)
    requires Enabled(s, e) && id in Apply(s, e).registry.entries
    requires Apply(s, e).registry.entries[id] == MasterNode.OPERATIONAL
    requires !(id in s.registry.entries && s.registry.entries[id] == MasterNode.OPERATIONAL)
    ensures e.MasterGetsReady? && id == e.conn && Attached(s, id) && Apply(s, e).chans == s.chans
    ensures id < |Apply(s, e).conns| && Apply(s, e).conns[id].chan == s.conns[id].chan
  {
    hide R.Start, R.OnReply, AfterCallback, Conserved, FirstGap;
  }

  /** The master marks a connection operational only on a request that follows the acceptance. */
  lemma {:induction false} RegistryKeep(s: State, e: Step)
    requires SessionsOk(s) && RegistryOk(s) && Enabled(s, e) && Grows(s, Apply(s, e))
    ensures RegistryOk(Apply(s, e))
  {
    hide Apply, FirstGap, SubLog, Later, GapsOkAt, AcceptedOkAt;
    var t := Apply(s, e);
    forall id | id in t.registry.entries && t.registry.entries[id] == MasterNode.OPERATIONAL
      ensures Attached(t, id) && t.chans[t.conns[id].chan].accepted.Some?
    {
      if id in s.registry.entries && s.registry.entries[id] == MasterNode.OPERATIONAL {
        assert ConnGrows(s.conns[id], t.conns[id]);
        assert SessionGrows(s.chans[s.conns[id].chan], t.chans[s.conns[id].chan]);
      } else {
        NewlyOperational(s, e, id);
        assert AsksInTurn(s.chans[s.conns[id].chan]);
      }
    }
  }

  lemma WellFormedParts(s: State)
    requires WellFormed(s)
    ensures MasterOk(s) && ConnsOk(s) && ChansOk(s) && NodesOk(s)
  {
  }

  lemma {:induction false} StepCatchesUp(s: State, e: Step)
    requires WellFormed(s) && Agrees(s) && CaughtUp(s) && Enabled(s, e)
    ensures CaughtUp(Apply(s, e))
  {
    hide WellFormed, Grows, Apply, StoresAgree, CallsAgree, RegSeenOk, ReaderOk, FramesOk, AnswersOk,
      SessionsOk, OperationalOk, RegistryOk;
    StepGrows(s, e);
    assert ChansOk(s) by { WellFormedParts(s); }
    SessionsKeep(s, e);
    OperationalKeep(s, e);
    RegistryKeep(s, e);
  }
}
