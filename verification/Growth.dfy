/**
 What every step keeps of the past: logs only grow, connections keep their ends, requests
 keep their ids.  `WellFormed` is the part of the invariant that says the state's references
 and tables fit together.
 */
module Growth {
  import opened Wrappers
  import opened Logs
  import opened RequestTable
  import opened Protocol
  import MasterStorage
  import MasterNode
  import SecondaryNode
  import SecondaryStorage
  import R = AddMessageRequest

  ghost predicate TableOk<P, A>(t: Table<P, A>, written: set<nat>, fired: set<nat>) {
    && Conserved(t)
    && (forall i {:trigger i in written} :: i in written ==> i < |t.issued|)
    && fired <= t.resolved.Keys
  }

  ghost predicate MasterOk(s: State) {
    && MasterStorage.Valid(s.storage)
    && s.requests.Keys == s.storage.messages.Keys
    && MasterNode.Valid(s.registry)
    && s.registry.counter == |s.conns|
  }

  ghost predicate ConnsOk(s: State) {
    forall id {:trigger s.conns[id]} :: 0 <= id < |s.conns| ==>
      && s.conns[id].chan < |s.chans|
      && s.chans[s.conns[id].chan].conn == Some(id)
      && TableOk(s.conns[id].out, s.conns[id].written, s.conns[id].fired)
  }

  ghost predicate ChansOk(s: State) {
    forall c {:trigger s.chans[c]} :: 0 <= c < |s.chans| ==>
      && s.chans[c].node < |s.nodes|
      && (s.chans[c].conn.Some? ==> s.chans[c].conn.value < |s.conns| && s.conns[s.chans[c].conn.value].chan == c)
      && TableOk(s.chans[c].out, s.chans[c].written, s.chans[c].fired)
  }

  ghost predicate NodesOk(s: State) {
    forall n {:trigger s.nodes[n]} :: 0 <= n < |s.nodes| && s.nodes[n].session.Some? ==>
      s.nodes[n].session.value < |s.chans| && s.chans[s.nodes[n].session.value].node == n
  }

  ghost predicate WellFormed(s: State) {
    && MasterOk(s) && ConnsOk(s) && ChansOk(s) && NodesOk(s)
    && (s.reader.Some? ==> s.reader.value.conn < |s.conns|)
  }

  // ---- growth ----

  ghost predicate ConnGrows(a: Conn, b: Conn) {
    && a.chan == b.chan && a.regSeen == b.regSeen
    && Later(a.out, b.out)
    && a.written <= b.written && a.fired <= b.fired
  }

  ghost predicate SessionGrows(a: Session, b: Session) {
    && a.node == b.node && (a.conn.Some? ==> b.conn == a.conn) && (a.accepted.Some? ==> b.accepted.Some?)
    && Later(a.out, b.out)
    && a.written <= b.written && a.fired <= b.fired
  }

  ghost predicate Grows(s: State, t: State) {
    && SubLog(s.storage.messages, t.storage.messages)
    && |s.conns| <= |t.conns|
    && (forall id {:trigger s.conns[id]} {:trigger t.conns[id]} ::
          0 <= id < |s.conns| ==> ConnGrows(s.conns[id], t.conns[id]))
    && |s.chans| <= |t.chans|
    && (forall c {:trigger s.chans[c]} {:trigger t.chans[c]} ::
          0 <= c < |s.chans| ==> SessionGrows(s.chans[c], t.chans[c]))
    && |s.nodes| <= |t.nodes|
    && (forall n {:trigger s.nodes[n]} {:trigger t.nodes[n]} ::
          0 <= n < |s.nodes| ==> SubLog(s.nodes[n].store, t.nodes[n].store))
  }

  lemma {:induction false} TableKeeps<P, A>(t: Table<P, A>, p: P, id: nat, o: Outcome<A>, reason: InvalidationReason,
                                            written: set<nat>, fired: set<nat>)
    requires TableOk(t, written, fired)
    ensures TableOk(Issue(t, p), written, fired) && Later(t, Issue(t, p))
    ensures TableOk(Resolve(t, id, o), written, fired) && Later(t, Resolve(t, id, o))
    ensures TableOk(ResolveAll(t, reason), written, fired) && Later(t, ResolveAll(t, reason))
  {
    TableSteps(t, p, id, o, reason);
  }

  lemma {:induction false} FreshTable<P, A>(p: P)
    ensures TableOk(Issue(NoRequests<P, A>(), p), {}, {})
    ensures TableOk(NoRequests<P, A>(), {}, {})
  {
    TableSteps(NoRequests<P, A>(), p, 0, Failed(TIMEOUT), TIMEOUT);
  }

  lemma {:induction false} NodeKeeps(n: SecondaryNode.Node, start: nat, texts: seq<Message>)
    ensures SubLog(n.store, SecondaryStorage.InsertAll(n.store, start, texts))
  {
    SecondaryStorage.InsertAllKeeps(n.store, start, texts);
  }

  lemma {:induction false} CallbackKeeps(d: Session, n: SecondaryNode.Node, i: nat)
    requires i < |d.out.issued| && i in d.out.resolved && TableOk(d.out, d.written, d.fired)
    ensures var (d', n') := AfterCallback(d, n, i);
      && SessionGrows(d, d') && TableOk(d'.out, d'.written, d'.fired)
      && d'.conn == d.conn && d'.fired == d.fired + {i} && n'.session == n.session
      && SubLog(n.store, n'.store)
  {
    TableKeeps(d.out, SecondaryNode.GetMessages(FirstGap(n.store)), 0, Failed(TIMEOUT), TIMEOUT, d.written, d.fired);
    TableKeeps(d.out, SecondaryNode.NodeReady, 0, Failed(TIMEOUT), TIMEOUT, d.written, d.fired);
    if d.out.issued[i].GetMessages? && d.out.resolved[i].Answer? && d.out.resolved[i].value.Texts? {
      NodeKeeps(n, d.out.issued[i].start, d.out.resolved[i].value.texts);
    }
  }

  lemma {:induction false} IssueAllKeeps(conns: seq<Conn>, targets: set<nat>, call: AddCall)
    requires forall id {:trigger conns[id]} :: 0 <= id < |conns| ==>
      TableOk(conns[id].out, conns[id].written, conns[id].fired)
    ensures var r := IssueAll(conns, targets, call);
      forall id {:trigger r[id]} :: 0 <= id < |conns| ==>
        && ConnGrows(conns[id], r[id]) && TableOk(r[id].out, r[id].written, r[id].fired)
        && r[id].fired == conns[id].fired
  {
    var r := IssueAll(conns, targets, call);
    forall id | 0 <= id < |conns|
      ensures ConnGrows(conns[id], r[id]) && TableOk(r[id].out, r[id].written, r[id].fired)
      ensures r[id].fired == conns[id].fired
    {
      TableKeeps(conns[id].out, call, 0, Failed(TIMEOUT), TIMEOUT, conns[id].written, conns[id].fired);
    }
  }

  /** One lemma for every step that replaces a single connection of the master. */
  lemma {:induction false} ConnStep(s: State, id: nat, b: Conn)
    requires WellFormed(s) && id < |s.conns|
    requires ConnGrows(s.conns[id], b) && TableOk(b.out, b.written, b.fired)
    ensures WellFormed(s.(conns := s.conns[id := b])) && Grows(s, s.(conns := s.conns[id := b]))
  {
  }

  /** One lemma for every step that replaces a single session, and perhaps its node. */
  lemma {:induction false} ChanStep(s: State, c: nat, d: Session, n: SecondaryNode.Node)
    requires WellFormed(s) && c < |s.chans|
    requires SessionGrows(s.chans[c], d) && d.conn == s.chans[c].conn && TableOk(d.out, d.written, d.fired)
    requires n.session == None || n.session == s.nodes[s.chans[c].node].session
    requires SubLog(s.nodes[s.chans[c].node].store, n.store)
    ensures var t := s.(chans := s.chans[c := d], nodes := s.nodes[s.chans[c].node := n]);
      WellFormed(t) && Grows(s, t)
  {
  }

  lemma {:induction false} SessionRunsKeeps(s: State, n: nat)
    requires WellFormed(s) && n < |s.nodes|
    ensures WellFormed(Apply(s, SessionRuns(n))) && Grows(s, Apply(s, SessionRuns(n)))
  {
    FreshTable<SecondaryNode.Call, Reply>(SecondaryNode.RunSession(s.nodes[n], |s.chans|).1);
  }

  lemma {:induction false} AddKeepsRegistry(r: MasterNode.Registry)
    requires MasterNode.Valid(r)
    ensures MasterNode.Valid(MasterNode.Add(r)) && MasterNode.Add(r).counter == r.counter + 1
  {
    MasterNode.NumbersAreNotReused(r, 0);
  }

  lemma GrowsReflexive<P, A>(t: Table<P, A>, m: Log)
    ensures Later(t, t) && SubLog(m, m)
  {
  }

  lemma {:induction false} MasterAcceptsKeeps(s: State, c: nat)
    requires WellFormed(s) && Enabled(s, MasterAccepts(c))
    ensures WellFormed(Apply(s, MasterAccepts(c))) && Grows(s, Apply(s, MasterAccepts(c)))
  {
    hide Conserved, Later, SubLog, MasterNode.Add, MasterStorage.Valid, TableOk;
    var t := Apply(s, MasterAccepts(c));
    assert TableOk(t.conns[|s.conns|].out, t.conns[|s.conns|].written, t.conns[|s.conns|].fired) by {
      FreshTable<AddCall, AddStatus>(AddCall(0, []));
    }
    AddKeepsRegistry(s.registry);
    GrowsReflexive(s.chans[c].out, s.storage.messages);
    forall n | 0 <= n < |s.nodes| ensures SubLog(s.nodes[n].store, t.nodes[n].store) {
      GrowsReflexive(s.chans[c].out, s.nodes[n].store);
    }
    forall k | 0 <= k < |s.conns| ensures ConnGrows(s.conns[k], t.conns[k]) {
      GrowsReflexive(s.conns[k].out, s.storage.messages);
    }
    forall k | 0 <= k < |s.chans| ensures SessionGrows(s.chans[k], t.chans[k]) {
      GrowsReflexive(s.chans[k].out, s.storage.messages);
    }
  }

  /** Replacing all connections by grown ones, and nothing else that the sessions refer to. */
  lemma {:induction false} ConnsStep(s: State, conns: seq<Conn>, rs: map<nat, R.Request>)
    requires WellFormed(s) && |conns| == |s.conns| && rs.Keys == s.requests.Keys
    requires forall id {:trigger conns[id]} :: 0 <= id < |conns| ==>
      ConnGrows(s.conns[id], conns[id]) && TableOk(conns[id].out, conns[id].written, conns[id].fired)
    ensures WellFormed(s.(conns := conns, requests := rs)) && Grows(s, s.(conns := conns, requests := rs))
  {
    hide Conserved, Later, TableOk, MasterStorage.Valid, MasterNode.Valid, SubLog;
    forall k | 0 <= k < |s.chans| ensures SessionGrows(s.chans[k], s.chans[k]) {
      GrowsReflexive(s.chans[k].out, s.storage.messages);
    }
    forall n | 0 <= n < |s.nodes| ensures SubLog(s.nodes[n].store, s.nodes[n].store) {
      SubLogReflexive(s.nodes[n].store);
    }
    SubLogReflexive(s.storage.messages);
  }

  lemma SubLogReflexive(m: Log)
    ensures SubLog(m, m)
  {
  }

  lemma {:induction false} WithRequestKeeps(s: State, m: nat, r: R.Request, targets: set<nat>)
    requires WellFormed(s) && m in s.storage.messages
    ensures WellFormed(WithRequest(s, m, r, targets)) && Grows(s, WithRequest(s, m, r, targets))
  {
    hide Grows, MasterOk, TableOk, ConnGrows;
    var call := AddCall(m, s.storage.messages[m]);
    IssueAllKeeps(s.conns, targets, call);
    RequestKeys(s, m);
    ConnsStep(s, IssueAll(s.conns, targets, call), s.requests[m := r]);
  }

  lemma RequestKeys(s: State, m: nat)
    requires MasterOk(s) && m in s.storage.messages
    ensures s.requests.Keys + {m} == s.requests.Keys
  {
  }

  lemma {:induction false} GrowsTransitive(s: State, t: State, u: State)
    requires Grows(s, t) && Grows(t, u)
    ensures Grows(s, u)
  {
    SubLogTransitive(s.storage.messages, t.storage.messages, u.storage.messages);
    forall n | 0 <= n < |s.nodes| ensures SubLog(s.nodes[n].store, u.nodes[n].store) {
      SubLogTransitive(s.nodes[n].store, t.nodes[n].store, u.nodes[n].store);
    }
    forall id | 0 <= id < |s.conns| ensures ConnGrows(s.conns[id], u.conns[id]) {
      assert ConnGrows(s.conns[id], t.conns[id]) && ConnGrows(t.conns[id], u.conns[id]);
    }
    forall c | 0 <= c < |s.chans| ensures SessionGrows(s.chans[c], u.chans[c]) {
      assert SessionGrows(s.chans[c], t.chans[c]) && SessionGrows(t.chans[c], u.chans[c]);
    }
  }

  lemma SameNode(s: State, c: nat)
    requires c < |s.chans| && s.chans[c].node < |s.nodes|
    ensures s.nodes[s.chans[c].node := s.nodes[s.chans[c].node]] == s.nodes
  {
  }

  /** A step of the wire that touches only a session's own table. */
  lemma {:induction false} SessionSteps(s: State, e: Step)
    requires WellFormed(s) && Enabled(s, e)
    requires e.SessionWrites? || e.SessionFails? || e.SessionDelivers?
    ensures WellFormed(Apply(s, e)) && Grows(s, Apply(s, e))
  {
    hide WellFormed, Grows, Conserved, Later;
    var c := e.chan;
    var d := s.chans[c];
    WellFormedAt(s, c);
    if e.SessionFails? {
      TableKeeps(d.out, SecondaryNode.NodeReady, e.req, Failed(TIMEOUT), TIMEOUT, d.written, d.fired);
    } else if e.SessionDelivers? {
      var outcome := OutcomeOf(Parse(d.out.issued[e.frame.req], e.frame.reply));
      TableKeeps(d.out, SecondaryNode.NodeReady, e.frame.req, outcome, TIMEOUT, d.written, d.fired);
    } else {
      LaterSame(d.out);
    }
    SubLogReflexive(s.nodes[d.node].store);
    ChanStep(s, c, Apply(s, e).chans[c], s.nodes[d.node]);
    SameNode(s, c);
  }

  lemma {:induction false} SessionCallbackSteps(s: State, c: nat, i: nat)
    requires WellFormed(s) && Enabled(s, SessionCallback(c, i))
    ensures WellFormed(Apply(s, SessionCallback(c, i))) && Grows(s, Apply(s, SessionCallback(c, i)))
  {
    hide WellFormed, Grows, Conserved, Later, AfterCallback;
    var t := Apply(s, SessionCallback(c, i));
    WellFormedAt(s, c);
    CallbackKeeps(s.chans[c], s.nodes[s.chans[c].node], i);
    ChanStep(s, c, t.chans[c], t.nodes[s.chans[c].node]);
  }

  lemma {:induction false} SessionBreaksKeeps(s: State, c: nat)
    requires WellFormed(s) && Enabled(s, SessionBreaks(c))
    ensures WellFormed(Apply(s, SessionBreaks(c))) && Grows(s, Apply(s, SessionBreaks(c)))
  {
    hide WellFormed, Grows, Conserved, Later;
    var d, t := s.chans[c], Apply(s, SessionBreaks(c));
    WellFormedAt(s, c);
    TableKeeps(d.out, SecondaryNode.NodeReady, 0, Failed(TIMEOUT), PEER_DISCONNECTED, d.written, d.fired);
    SubLogReflexive(s.nodes[d.node].store);
    ChanStep(s, c, t.chans[c], t.nodes[d.node]);
  }

  lemma ConnWellFormedAt(s: State, id: nat)
    requires WellFormed(s) && id < |s.conns|
    ensures TableOk(s.conns[id].out, s.conns[id].written, s.conns[id].fired)
  {
  }

  lemma WellFormedAt(s: State, c: nat)
    requires WellFormed(s) && c < |s.chans|
    ensures TableOk(s.chans[c].out, s.chans[c].written, s.chans[c].fired)
    ensures s.chans[c].node < |s.nodes|
  {
  }

  lemma {:induction false} ConnSteps(s: State, e: Step)
    requires WellFormed(s) && Enabled(s, e)
    requires e.ConnWrites? || e.ConnFails? || e.ConnBreaks? || e.ConnGetsReply?
    ensures WellFormed(Apply(s, e)) && Grows(s, Apply(s, e))
  {
    hide WellFormed, Grows, Conserved, Later, AfterCallback, IssueAll, WithRequest, Alive, Attached;
    var id := e.conn;
    ConnWellFormedAt(s, id);
    TableKeeps(s.conns[id].out, AddCall(0, []), if e.ConnBreaks? then 0 else e.req,
               if e.ConnGetsReply? then Answer(e.status) else Failed(TIMEOUT), PEER_DISCONNECTED,
               s.conns[id].written, s.conns[id].fired);
    LaterSame(s.conns[id].out);
    ConnStep(s, id, Apply(s, e).conns[id]);
  }

  /** An answer of the master goes on the wire. */
  lemma {:induction false} ServedSteps(s: State, e: Step)
    requires WellFormed(s) && Enabled(s, e) && (e.ScanEnds? || e.MasterGetsReady?)
    ensures WellFormed(Apply(s, e)) && Grows(s, Apply(s, e))
  {
    if e.ScanEnds? {
      ConnStep(s, s.reader.value.conn, Apply(s, e).conns[s.reader.value.conn]);
    } else {
      ConnStep(s, e.conn, Apply(s, e).conns[e.conn]);
      MasterNode.NumbersAreNotReused(s.registry, e.conn);
    }
  }

  lemma {:induction false} GetsAddKeeps(s: State, e: Step)
    requires WellFormed(s) && Enabled(s, e) && e.SessionGetsAdd?
    ensures WellFormed(Apply(s, e)) && Grows(s, Apply(s, e))
  {
    ConnStep(s, e.conn, Apply(s, e).conns[e.conn]);
  }

  lemma {:induction false} RequestSteps(s: State, e: Step)
    requires WellFormed(s) && Enabled(s, e) && (e.RequestStarts? || e.RequestCallback?)
    ensures WellFormed(Apply(s, e)) && Grows(s, Apply(s, e))
  {
    hide R.Start, R.OnReply;
    if e.RequestStarts? {
      var (r, targets) := R.Start(s.requests[e.id], Some(s.registry.entries.Keys));
      WithRequestKeeps(s, e.id, r, targets);
    } else {
      var b := s.conns[e.conn].(fired := s.conns[e.conn].fired + {e.req});
      var m := s.conns[e.conn].out.issued[e.req].id;
      var (r, targets) := R.OnReply(s.requests[m], e.conn, ReplyOf(s.conns[e.conn].out.resolved[e.req]),
                                    Some(s.registry.entries.Keys));
      ConnStep(s, e.conn, b);
      var t := s.(conns := s.conns[e.conn := b]);
      WithRequestKeeps(t, m, r, targets);
      GrowsTransitive(s, t, Apply(s, e));
    }
  }

  lemma {:induction false} InsertsKeeps(s: State, e: Step)
    requires WellFormed(s) && Enabled(s, e) && e.Inserts?
    ensures WellFormed(Apply(s, e)) && Grows(s, Apply(s, e))
  {
    MasterStorage.InsertGrows(s.storage, e.id);
    hide MasterStorage.Valid, MasterStorage.Insert, Conserved, Later, SubLog, TableOk;
    MasterStorageKeys(s.storage, e.id);
    var t := Apply(s, e);
    GrowsSame(s);
    assert t.conns == s.conns && t.chans == s.chans && t.nodes == s.nodes;
  }

  lemma MasterStorageKeys(s: MasterStorage.Store, id: nat)
    requires id in s.reserved
    ensures MasterStorage.Insert(s, id).messages.Keys == s.messages.Keys + {id}
  {
  }

  lemma GrowsSame(s: State)
    ensures Grows(s, s)
  {
  }

  /** Connections, sessions and nodes stay; the master's own part may change. */
  lemma {:induction false} MasterStepKeeps(s: State, t: State)
    requires WellFormed(s) && MasterOk(t) && SubLog(s.storage.messages, t.storage.messages)
    requires t.conns == s.conns && t.chans == s.chans && t.nodes == s.nodes
    requires t.reader.Some? ==> t.reader.value.conn < |t.conns|
    ensures WellFormed(t) && Grows(s, t)
  {
    hide MasterOk, TableOk, Later, Conserved, SubLog;
    GrowsSame(s);
  }

  lemma {:induction false} NodeStartsKeeps(s: State)
    requires WellFormed(s)
    ensures WellFormed(Apply(s, NodeStarts)) && Grows(s, Apply(s, NodeStarts))
  {
    hide MasterStorage.Valid, MasterNode.Valid, TableOk, Later, Conserved;
    GrowsSame(s);
  }

  lemma {:induction false} ScanStepsKeep(s: State, e: Step)
    requires WellFormed(s) && Enabled(s, e) && (e.ScanBegins? || e.ScanFinds?)
    ensures WellFormed(Apply(s, e)) && Grows(s, Apply(s, e))
  {
    SubLogReflexive(s.storage.messages);
    hide TableOk, Conserved, SubLog, MasterStorage.Valid, ConnsOk, ChansOk, NodesOk;
    MasterStepKeeps(s, Apply(s, e));
  }

  lemma {:induction false} DropsKeeps(s: State, id: nat)
    requires WellFormed(s) && Enabled(s, RegistryDrops(id))
    ensures WellFormed(Apply(s, RegistryDrops(id))) && Grows(s, Apply(s, RegistryDrops(id)))
  {
    SubLogReflexive(s.storage.messages);
    MasterNode.NumbersAreNotReused(s.registry, id);
    hide TableOk, Conserved, SubLog, MasterStorage.Valid, ConnsOk, ChansOk, NodesOk, MasterNode.Valid;
    MasterStepKeeps(s, Apply(s, RegistryDrops(id)));
  }

  lemma {:induction false} ReservesKeeps(s: State, text: Message)
    requires WellFormed(s)
    ensures WellFormed(Apply(s, Reserves(text))) && Grows(s, Apply(s, Reserves(text)))
  {
    SubLogReflexive(s.storage.messages);
    hide TableOk, Conserved, SubLog, ConnsOk, ChansOk, NodesOk, MasterNode.Valid;
    assert s.storage.next !in s.storage.messages && s.storage.next !in s.storage.reserved;
    MasterStepKeeps(s, Apply(s, Reserves(text)));
  }

  /** Every step keeps the state well formed and loses nothing. */
  lemma {:induction false} StepGrows(s: State, e: Step)
    requires WellFormed(s) && Enabled(s, e)
    ensures WellFormed(Apply(s, e)) && Grows(s, Apply(s, e))
  {
    hide WellFormed, Grows, Apply;
    match e {
      case SessionRuns(n) => SessionRunsKeeps(s, n);
      case MasterAccepts(c) => MasterAcceptsKeeps(s, c);
      case SessionGetsAdd(_, _) => GetsAddKeeps(s, e);
      case RequestStarts(_) => RequestSteps(s, e);
      case RequestCallback(_, _) => RequestSteps(s, e);
      case NodeStarts => NodeStartsKeeps(s);
      case ScanBegins(_, _) => ScanStepsKeep(s, e);
      case ScanFinds => ScanStepsKeep(s, e);
      case RegistryDrops(id) => DropsKeeps(s, id);
      case Reserves(text) => ReservesKeeps(s, text);
      case Inserts(_, _) => InsertsKeeps(s, e);
      case SessionWrites(_, _) => SessionSteps(s, e);
      case SessionFails(_, _) => SessionSteps(s, e);
      case SessionDelivers(_, _) => SessionSteps(s, e);
      case SessionCallback(c, i) => SessionCallbackSteps(s, c, i);
      case SessionBreaks(c) => SessionBreaksKeeps(s, c);
      case ConnWrites(_, _) => ConnSteps(s, e);
      case ConnFails(_, _) => ConnSteps(s, e);
      case ConnBreaks(_) => ConnSteps(s, e);
      case ConnGetsReply(_, _, _) => ConnSteps(s, e);
      case ScanEnds => ServedSteps(s, e);
      case MasterGetsReady(_, _) => ServedSteps(s, e);
    }
  }
}
