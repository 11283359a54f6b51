/**
 Two runs that show why the hypotheses of the theorems are there.  In the first a chunk is
 read while an id is reserved only, and a message never reaches the session that got it.  In the
 second one node confirms a message twice, under two connection numbers.
 */
module Counterexamples {
  import opened Wrappers
  import opened Logs
  import opened RequestTable
  import opened Protocol
  import opened DistinctNodes
  import MasterStorage
  import MasterNode
  import SecondaryNode
  import R = AddMessageRequest

  ghost predicate Reachable(s: State) {
    exists ss: seq<State>, es: seq<Step> :: IsRun(ss, es) && ss[|es|] == s
  }

  lemma InitReachable()
    ensures Reachable(INIT)
  {
    var es: seq<Step> := [];
    assert IsRun([INIT], es) && [INIT][|es|] == INIT;
  }

  lemma {:induction false} StepReachable(s: State, e: Step)
    requires Reachable(s) && Enabled(s, e)
    ensures Reachable(Apply(s, e))
  {
    hide Apply, Enabled;
    var ss: seq<State>, es: seq<Step> :| IsRun(ss, es) && ss[|es|] == s;
    var ss', es' := ss + [Apply(s, e)], es + [e];
    forall i | 0 <= i < |es'| ensures Enabled(ss'[i], es'[i]) && ss'[i + 1] == Apply(ss'[i], es'[i]) {
      if i < |es| {
        assert es'[i] == es[i];
      }
    }
    assert IsRun(ss', es') && ss'[|es'|] == Apply(s, e);
  }

  const TEXT_A: Message := [97]
  const TEXT_B: Message := [98]

  // ---- the requests of the two runs ----

  const ENDED := R.Request(0, true, 0, {}, map[], R.Fulfilled, {}, false, R.Answered, Some(R.Confirmation({}, {})))
  const ASKED := R.Request(0, true, 1, {0}, map[], R.Fulfilled, {0}, false, R.Live, Some(R.Confirmation({}, {0})))
  const DONE := R.Request(0, true, 0, {0}, map[0 := R.ADDED], R.Fulfilled, {}, false, R.Answered,
                          Some(R.Confirmation({}, {0})))
  const ROUND_1 := R.Request(2, true, 1, {0}, map[], R.Unfilled, {0}, false, R.Live, None)
  const ROUND_2 := R.Request(2, true, 1, {0, 1}, map[0 := R.ADDED], R.Unfilled, {1}, false, R.Live, None)
  const CONFIRMED_2 := R.Request(2, true, 0, {0, 1}, map[0 := R.ADDED, 1 := R.ADDED], R.Fulfilled, {}, false,
                                 R.Answered, Some(R.Confirmation({0, 1}, {0, 1})))

  lemma NoStatuses()
    ensures R.Having(map[], R.ADDED) == {} && R.NotHaving(map[], R.ERROR) == {}
  {
  }

  lemma OneStatus()
    ensures R.Having(map[0 := R.ADDED], R.ADDED) == {0} && R.NotHaving(map[0 := R.ADDED], R.ERROR) == {0}
  {
  }

  lemma TwoStatuses()
    ensures R.Having(map[0 := R.ADDED, 1 := R.ADDED], R.ADDED) == {0, 1}
    ensures R.NotHaving(map[0 := R.ADDED, 1 := R.ADDED], R.ERROR) == {0, 1}
  {
  }

  lemma {:induction false} StartAlone()
    ensures R.Start(R.New(0), Some({})) == (ENDED, {})
  {
    NoStatuses();
    assert R.UpdateData(R.New(0).(started := true), {}).statuses == map[];
  }

  lemma {:induction false} StartWithOne()
    ensures R.Start(R.New(0), Some({0})) == (ASKED, {0})
  {
    NoStatuses();
    assert R.UpdateData(R.New(0).(started := true), {0}).statuses == map[];
    assert R.ToQuery({0}, map[]) == {0};
  }

  lemma {:induction false} ReplyEnds()
    ensures R.OnReply(ASKED, 0, R.OK, Some({0})) == (DONE, {})
  {
    OneStatus();
    var q := R.AfterReply(ASKED, 0, R.OK);
    assert q.statuses == map[0 := R.ADDED] && q.outstanding == {};
    assert R.UpdateData(q, {0}).statuses == map[0 := R.ADDED];
  }

  lemma {:induction false} StartForTwo()
    ensures R.Start(R.New(2), Some({0})) == (ROUND_1, {0})
  {
    NoStatuses();
    assert R.UpdateData(R.New(2).(started := true), {0}).statuses == map[];
    assert R.ToQuery({0}, map[]) == {0};
  }

  lemma {:induction false} ReplyAsksAgain()
    ensures R.OnReply(ROUND_1, 0, R.OK, Some({0, 1})) == (ROUND_2, {1})
  {
    OneStatus();
    var q := R.AfterReply(ROUND_1, 0, R.OK);
    assert q.statuses == map[0 := R.ADDED] && q.outstanding == {};
    assert R.UpdateData(q, {0, 1}).statuses == map[0 := R.ADDED];
    assert R.ToQuery({0, 1}, map[0 := R.ADDED]) == {1};
  }

  lemma {:induction false} ReplyConfirms()
    ensures R.OnReply(ROUND_2, 1, R.OK, Some({0, 1})) == (CONFIRMED_2, {})
  {
    TwoStatuses();
    var both := map[0 := R.ADDED, 1 := R.ADDED];
    var q := R.AfterReply(ROUND_2, 1, R.OK);
    assert q.statuses == both && q.outstanding == {};
    assert R.UpdateData(q, {0, 1}).statuses == both;
  }

  /** What a start does, given what becomes of the request. */
  lemma StartStep(s: State, m: nat, r: R.Request, targets: set<nat>)
    requires Enabled(s, RequestStarts(m)) && R.Start(s.requests[m], Some(s.registry.entries.Keys)) == (r, targets)
    ensures Apply(s, RequestStarts(m)) ==
      s.(requests := s.requests[m := r], conns := IssueAll(s.conns, targets, AddCall(m, s.storage.messages[m])))
  {
    hide R.Start, R.OnReply, AfterCallback, IssueAll;
  }

  /** What a callback does, given what becomes of the request. */
  lemma CallbackStep(s: State, id: nat, i: nat, m: nat, r: R.Request, targets: set<nat>)
    requires Enabled(s, RequestCallback(id, i)) && m == s.conns[id].out.issued[i].id
    requires R.OnReply(s.requests[m], id, ReplyOf(s.conns[id].out.resolved[i]), Some(s.registry.entries.Keys))
             == (r, targets)
    ensures Apply(s, RequestCallback(id, i)) ==
      s.(requests := s.requests[m := r],
         conns := IssueAll(s.conns[id := s.conns[id].(fired := s.conns[id].fired + {i})], targets,
                           AddCall(m, s.storage.messages[m])))
  {
    hide R.Start, R.OnReply, AfterCallback, IssueAll;
  }

  // ---- a gap at the wrong moment ----

  const ONE: Log := map[1 := TEXT_B]

  /** Ids 0 and 1 are taken, only 1 is inserted, and its request has found no secondary to ask. */
  const GAP_1 := State(MasterStorage.Store(2, ONE, map[0 := TEXT_A]), map[1 := ENDED], MasterNode.EMPTY,
                       [], None, [], [])

  const TWO_RESERVED := INIT.(storage := MasterStorage.Store(2, map[], map[0 := TEXT_A, 1 := TEXT_B]))
  const ONE_INSERTED := INIT.(storage := MasterStorage.Store(2, ONE, map[0 := TEXT_A]), requests := map[1 := R.New(0)])

  lemma {:induction false} GapReserves()
    ensures Reachable(TWO_RESERVED)
  {
    hide R.Start, R.OnReply, AfterCallback, Resolve, ResolveAll, IssueAll, MasterNode.Add, MasterNode.Drop,
      MasterNode.Ready, SecondaryNode.RunSession, SecondaryNode.OnAddMessage, SecondaryNode.Disconnect,
      MasterStorage.Insert, MasterStorage.Advance, NewSession, NewConn, Parse, ReplyOf, WithRequest;
    InitReachable();
    StepReachable(INIT, Reserves(TEXT_A));
    var t := Apply(INIT, Reserves(TEXT_A));
    StepReachable(t, Reserves(TEXT_B));
    assert Apply(t, Reserves(TEXT_B)) == TWO_RESERVED;
  }

  lemma {:induction false} GapOvertaken()
    requires Reachable(TWO_RESERVED)
    ensures Reachable(ONE_INSERTED)
  {
    hide R.Start, R.OnReply, AfterCallback, Resolve, ResolveAll, IssueAll, MasterNode.Add, MasterNode.Drop,
      MasterNode.Ready, SecondaryNode.RunSession, SecondaryNode.OnAddMessage, SecondaryNode.Disconnect,
      MasterStorage.Reserve, MasterStorage.Advance, NewSession, NewConn, Parse, ReplyOf, WithRequest;
    StepReachable(TWO_RESERVED, Inserts(1, 0));
    assert Apply(TWO_RESERVED, Inserts(1, 0)) == ONE_INSERTED;
  }

  lemma {:induction false} GapPhase1()
    ensures Reachable(GAP_1)
  {
    hide R.Start, R.OnReply, AfterCallback, Resolve, ResolveAll, MasterNode.Add, MasterNode.Drop,
      MasterNode.Ready, SecondaryNode.RunSession, SecondaryNode.OnAddMessage, SecondaryNode.Disconnect,
      MasterStorage.Reserve, MasterStorage.Insert, MasterStorage.Advance, NewSession, NewConn, Parse,
      ReplyOf;
    GapReserves();
    GapOvertaken();
    StepReachable(ONE_INSERTED, RequestStarts(1));
    StartAlone();
    assert ONE_INSERTED.registry.entries.Keys == {};
    var t := Apply(ONE_INSERTED, RequestStarts(1));
    assert t.requests == map[1 := ENDED];
    assert t == GAP_1;
  }

  const ASKING := Session(0, Some(0), Table([SecondaryNode.GetMessages(0)], {0}, map[]), {0}, {}, None)
  const JOINED := MasterNode.Registry(1, map[0 := MasterNode.REGISTERING])
  const IDLE := Conn(0, Table([], {}, map[]), {}, {}, {}, {}, ONE)

  /** A secondary has connected, asked for everything, and is registered. */
  const GAP_2 := GAP_1.(registry := JOINED, conns := [IDLE], chans := [ASKING],
                      nodes := [SecondaryNode.Node(map[], false, Some(0))])

  lemma {:induction false} GapPhase2()
    requires Reachable(GAP_1)
    ensures Reachable(GAP_2)
  {
    hide R.Start, R.OnReply;
    StepReachable(GAP_1, NodeStarts);
    var s1 := Apply(GAP_1, NodeStarts);
    assert s1 == GAP_1.(nodes := [SecondaryNode.FRESH]);
    StepReachable(s1, SessionRuns(0));
    var s2 := Apply(s1, SessionRuns(0));
    GapIsUnique(map[], 0, 0);
    assert s2.chans[0].out == ASKING.out;
    assert s2 == GAP_1.(nodes := [SecondaryNode.Node(map[], false, Some(0))],
                       chans := [ASKING.(written := {}, conn := None)]);
    StepReachable(s2, SessionWrites(0, 0));
    var s3 := Apply(s2, SessionWrites(0, 0));
    assert s3.chans[0].written == {0};
    assert s3 == s2.(chans := [ASKING.(conn := None)]);
    StepReachable(s3, MasterAccepts(0));
    assert Apply(s3, MasterAccepts(0)).chans == [ASKING];
    assert Apply(s3, MasterAccepts(0)) == GAP_2;
  }

  const NOTHING := Frame(0, Texts([], ONE))
  const OPERATIONAL := Session(0, Some(0),
    Table([SecondaryNode.GetMessages(0), SecondaryNode.NodeReady], {1}, map[0 := Answer(Texts([], ONE))]),
    {0}, {0}, Some(Acceptance(0, [], ONE)))

  /** The chunk from id 0 is empty; the secondary has stored it and is operational. */
  const GAP_3 := GAP_2.(conns := [IDLE.(served := {NOTHING})], chans := [OPERATIONAL],
                      nodes := [SecondaryNode.Node(map[], true, Some(0))])

  const GAP_2A := GAP_2.(reader := Some(Reader(0, 0, MasterStorage.Scan(0, []))))
  const GAP_2B := GAP_2.(conns := [IDLE.(served := {NOTHING})])
  const ANSWERED := ASKING.(out := Table([SecondaryNode.GetMessages(0)], {}, map[0 := Answer(Texts([], ONE))]))
  const GAP_2C := GAP_2B.(chans := [ANSWERED])

  lemma {:induction false} GapScanBegins()
    requires Reachable(GAP_2)
    ensures Reachable(GAP_2A)
  {
    hide R.Start, R.OnReply, AfterCallback, IssueAll, MasterNode.Add, SecondaryNode.RunSession;
    StepReachable(GAP_2, ScanBegins(0, 0));
    var t := Apply(GAP_2, ScanBegins(0, 0));
    assert t == GAP_2A;
  }

  lemma {:induction false} GapScanEnds()
    requires Reachable(GAP_2A)
    ensures Reachable(GAP_2B)
  {
    hide R.Start, R.OnReply, AfterCallback, IssueAll, MasterNode.Add, SecondaryNode.RunSession;
    StepReachable(GAP_2A, ScanEnds);
    var t := Apply(GAP_2A, ScanEnds);
    assert t.conns[0].served == {NOTHING};
    assert t == GAP_2B;
  }

  lemma {:induction false} GapDelivered()
    requires Reachable(GAP_2B)
    ensures Reachable(GAP_2C)
  {
    hide R.Start, R.OnReply, AfterCallback, IssueAll, MasterNode.Add, SecondaryNode.RunSession;
    StepReachable(GAP_2B, SessionDelivers(0, NOTHING));
    var t := Apply(GAP_2B, SessionDelivers(0, NOTHING));
    assert t.chans[0].out == ANSWERED.out;
    assert t == GAP_2C;
  }

  lemma {:induction false} GapAccepted()
    requires Reachable(GAP_2C)
    ensures Reachable(GAP_3)
  {
    hide R.Start, R.OnReply, IssueAll, Resolve, ResolveAll, MasterNode.Add;
    StepReachable(GAP_2C, SessionCallback(0, 0));
    var t := Apply(GAP_2C, SessionCallback(0, 0));
    assert t.chans[0].fired == {0};
    assert t.chans[0].out == OPERATIONAL.out;
    assert t == GAP_3;
  }

  lemma GapPhase3()
    requires Reachable(GAP_2)
    ensures Reachable(GAP_3)
  {
    GapScanBegins();
    GapScanEnds();
    GapDelivered();
    GapAccepted();
  }

  const BOTH: Log := map[0 := TEXT_A, 1 := TEXT_B]
  const TOLD := Conn(0, Table([AddCall(0, TEXT_A)], {0}, map[]), {0}, {}, {}, {NOTHING}, ONE)

  /** Message 0 is inserted after all, and sent to the secondary. */
  const GAP_4 := GAP_3.(storage := MasterStorage.Store(2, BOTH, map[]), requests := map[0 := ASKED, 1 := ENDED],
                      conns := [TOLD])

  const GAP_3A := GAP_3.(storage := MasterStorage.Store(2, BOTH, map[]), requests := map[0 := R.New(0), 1 := ENDED])
  const GAP_3B := GAP_4.(conns := [TOLD.(written := {})])

  lemma {:induction false} GapInserts()
    requires Reachable(GAP_3)
    ensures Reachable(GAP_3A)
  {
    hide R.Start, R.OnReply, AfterCallback, IssueAll, MasterNode.Add, SecondaryNode.RunSession;
    StepReachable(GAP_3, Inserts(0, 0));
    var t := Apply(GAP_3, Inserts(0, 0));
    assert t.storage == GAP_3A.storage;
    assert t == GAP_3A;
  }

  lemma {:induction false} GapCalls()
    ensures IssueAll(GAP_3A.conns, {0}, AddCall(0, GAP_3A.storage.messages[0])) == GAP_3B.conns
  {
    hide Enabled, Apply;
    var conns := IssueAll(GAP_3A.conns, {0}, AddCall(0, TEXT_A));
    assert conns[0].out == TOLD.out;
  }

  lemma {:induction false} GapRound()
    requires Reachable(GAP_3A)
    ensures Reachable(GAP_3B)
  {
    hide R.Start, Apply, IssueAll, Reachable;
    StepReachable(GAP_3A, RequestStarts(0));
    hide Enabled;
    assert GAP_3A.registry.entries.Keys == {0};
    StartWithOne();
    StartStep(GAP_3A, 0, ASKED, {0});
    GapCalls();
    assert GAP_3A.requests[0 := ASKED] == GAP_3B.requests;
  }

  lemma {:induction false} GapWritten()
    requires Reachable(GAP_3B)
    ensures Reachable(GAP_4)
  {
    hide R.Start, R.OnReply, AfterCallback, IssueAll, MasterNode.Add, SecondaryNode.RunSession;
    StepReachable(GAP_3B, ConnWrites(0, 0));
    var t := Apply(GAP_3B, ConnWrites(0, 0));
    assert t.conns[0].written == {0};
    assert t == GAP_4;
  }

  lemma GapPhase4()
    requires Reachable(GAP_3)
    ensures Reachable(GAP_4)
  {
    GapInserts();
    GapRound();
    GapWritten();
  }

  /** Message 0 has arrived; nothing is left to do, and message 1 is still missing. */
  const GAP_5 := GAP_4.(requests := map[0 := DONE, 1 := ENDED],
    conns := [TOLD.(out := Table([AddCall(0, TEXT_A)], {}, map[0 := Answer(OK)]), replies := {(0, OK)}, fired := {0})],
    nodes := [SecondaryNode.Node(map[0 := TEXT_A], true, Some(0))])

  const GAP_4A := GAP_4.(nodes := GAP_5.nodes, conns := [TOLD.(replies := {(0, OK)})])
  const GAP_4B := GAP_4A.(conns := [GAP_5.conns[0].(fired := {})])

  lemma {:induction false} GapStored()
    requires Reachable(GAP_4)
    ensures Reachable(GAP_4A)
  {
    hide R.Start, R.OnReply, AfterCallback, IssueAll, MasterNode.Add, SecondaryNode.RunSession;
    StepReachable(GAP_4, SessionGetsAdd(0, 0));
    var t := Apply(GAP_4, SessionGetsAdd(0, 0));
    assert t.conns[0].replies == {(0, OK)};
    assert t.nodes[0].store == map[0 := TEXT_A];
    assert t == GAP_4A;
  }

  lemma {:induction false} GapReplied()
    requires Reachable(GAP_4A)
    ensures Reachable(GAP_4B)
  {
    hide R.Start, R.OnReply, AfterCallback, IssueAll, MasterNode.Add, SecondaryNode.RunSession;
    StepReachable(GAP_4A, ConnGetsReply(0, 0, OK));
    var t := Apply(GAP_4A, ConnGetsReply(0, 0, OK));
    assert t.conns[0].out == Table([AddCall(0, TEXT_A)], {}, map[0 := Answer(OK)]);
    assert t == GAP_4B;
  }

  lemma {:induction false} GapFinishedCalls()
    ensures IssueAll([GAP_4B.conns[0].(fired := {0})], {}, AddCall(0, GAP_4B.storage.messages[0])) == GAP_5.conns
  {
    hide Enabled, Apply;
  }

  lemma {:induction false} GapFinished()
    requires Reachable(GAP_4B)
    ensures Reachable(GAP_5)
  {
    hide R.OnReply, Apply, IssueAll, Reachable;
    StepReachable(GAP_4B, RequestCallback(0, 0));
    assert GAP_4B.registry.entries.Keys == {0};
    ReplyEnds();
    CallbackStep(GAP_4B, 0, 0, 0, DONE, {});
    hide Enabled, ReplyOf;
    GapFinishedCalls();
    assert GAP_4B.conns[0].fired + {0} == {0};
    assert GAP_4B.conns[0 := GAP_4B.conns[0].(fired := {0})] == [GAP_4B.conns[0].(fired := {0})];
    assert GAP_4B.requests[0 := DONE] == GAP_5.requests;
  }

  lemma GapPhase5()
    requires Reachable(GAP_4)
    ensures Reachable(GAP_5)
  {
    GapStored();
    GapReplied();
    GapFinished();
  }

  /**
   Convergence fails without its hypothesis: in this reachable state nothing is reserved, all
   requests have ended with everybody having answered, and the only secondary is registered
   and operational; yet the master shows two messages and the secondary one.
   */
  lemma {:induction false} ConvergenceNeedsGapFreeReads() returns (s: State)
    ensures Reachable(s)
    ensures s.storage.reserved == map[] && s.storage.next == 2
    ensures forall m :: m in s.requests ==> s.requests[m].end == R.Answered
    ensures 0 in s.registry.entries && Attached(s, 0) && s.chans[s.conns[0].chan].accepted.Some?
    ensures |s.nodes| == 1 && s.nodes[0].operational
    ensures |Chunk(s.storage.messages, 0)| == 2 && |Chunk(s.nodes[0].store, 0)| == 1
  {
    GapPhase1();
    GapPhase2();
    GapPhase3();
    GapPhase4();
    GapPhase5();
    s := GAP_5;
    GapIsUnique(BOTH, 0, 2);
    GapIsUnique(map[0 := TEXT_A], 0, 1);
  }

  // ---- one node, two connections ----

  const A: Log := map[0 := TEXT_A]
  const THE_CALL := AddCall(0, TEXT_A)
  const FIRST_ASK := Session(0, Some(0), Table([SecondaryNode.GetMessages(0)], {0}, map[]), {}, {}, None)
  /** One secondary; a message that needs two confirmations has been sent to it. */
  const TWO_1 := State(MasterStorage.Store(1, A, map[]), map[0 := ROUND_1], JOINED,
    [Conn(0, Table([THE_CALL], {0}, map[]), {}, {}, {}, {}, map[])], None,
    [FIRST_ASK], [SecondaryNode.Node(map[], false, Some(0))])

  const TWO_0 := INIT.(nodes := TWO_1.nodes, chans := [FIRST_ASK], registry := JOINED, conns := [NewConn(0, map[])])
  const TWO_0A := TWO_0.(storage := MasterStorage.Store(1, A, map[]), requests := map[0 := R.New(2)])

  lemma {:induction false} TwiceConnects()
    ensures Reachable(TWO_0)
  {
    hide R.Start, R.OnReply, AfterCallback, Resolve, ResolveAll, IssueAll, MasterNode.Drop,
      MasterNode.Ready, SecondaryNode.OnAddMessage, MasterStorage.Reserve, MasterStorage.Insert,
      MasterStorage.Advance, Parse, ReplyOf, WithRequest;
    InitReachable();
    StepReachable(INIT, NodeStarts);
    var s1 := Apply(INIT, NodeStarts);
    StepReachable(s1, SessionRuns(0));
    var s2 := Apply(s1, SessionRuns(0));
    GapIsUnique(map[], 0, 0);
    assert s2.chans[0].out == FIRST_ASK.out;
    assert s2 == INIT.(nodes := TWO_1.nodes, chans := [FIRST_ASK.(conn := None)]);
    StepReachable(s2, MasterAccepts(0));
    assert Apply(s2, MasterAccepts(0)) == TWO_0;
  }

  lemma {:induction false} TwiceInserts()
    requires Reachable(TWO_0)
    ensures Reachable(TWO_0A)
  {
    hide R.Start, R.OnReply, AfterCallback, Resolve, ResolveAll, IssueAll, MasterNode.Add, MasterNode.Drop,
      MasterNode.Ready, SecondaryNode.RunSession, SecondaryNode.OnAddMessage, SecondaryNode.Disconnect,
      MasterStorage.Advance, NewSession, NewConn, Parse, ReplyOf, WithRequest;
    StepReachable(TWO_0, Reserves(TEXT_A));
    var t := Apply(TWO_0, Reserves(TEXT_A));
    StepReachable(t, Inserts(0, 3));
    assert Apply(t, Inserts(0, 3)) == TWO_0A;
  }

  lemma {:induction false} TwicePhase1()
    ensures Reachable(TWO_1)
  {
    hide R.Start, R.OnReply, AfterCallback, Resolve, ResolveAll, MasterNode.Add, MasterNode.Drop,
      MasterNode.Ready, SecondaryNode.RunSession, SecondaryNode.OnAddMessage, SecondaryNode.Disconnect,
      MasterStorage.Reserve, MasterStorage.Insert, MasterStorage.Advance, NewSession, Parse, ReplyOf;
    TwiceConnects();
    TwiceInserts();
    assert TWO_0A.registry.entries.Keys == {0};
    StepReachable(TWO_0A, RequestStarts(0));
    var t := Apply(TWO_0A, RequestStarts(0));
    StartForTwo();
    assert t.conns[0].out == TWO_1.conns[0].out;
    assert t.requests == TWO_1.requests;
    assert t == TWO_1;
  }

  const OLD_ASK := FIRST_ASK.(out := Table([SecondaryNode.GetMessages(0)], {}, map[0 := Failed(PEER_DISCONNECTED)]))
  const NEW_ASK := Session(0, Some(1), Table([SecondaryNode.GetMessages(1)], {0}, map[]), {}, {}, None)
  const OLD_CONN := Conn(0, Table([THE_CALL], {}, map[0 := Answer(OK)]), {0}, {(0, OK)}, {}, {}, map[])
  const JOINED_TWICE := MasterNode.Registry(2, map[0 := MasterNode.REGISTERING, 1 := MasterNode.REGISTERING])

  /** It stored the message, lost its connection and is registered under a second number. */
  const TWO_2 := TWO_1.(registry := JOINED_TWICE, chans := [OLD_ASK, NEW_ASK],
    conns := [OLD_CONN, Conn(1, Table([], {}, map[]), {}, {}, {}, {}, A)],
    nodes := [SecondaryNode.Node(A, false, Some(1))])

  /** The message is stored and confirmed on the wire. */
  const TWO_1A := TWO_1.(conns := [OLD_CONN], nodes := [SecondaryNode.Node(A, false, Some(0))])

  lemma {:induction false} TwicePhase2a()
    requires Reachable(TWO_1)
    ensures Reachable(TWO_1A)
  {
    StepReachable(TWO_1, ConnWrites(0, 0));
    var s1 := Apply(TWO_1, ConnWrites(0, 0));
    assert s1.conns[0].written == {0};
    assert s1 == TWO_1.(conns := [TWO_1.conns[0].(written := {0})]);
    StepReachable(s1, SessionGetsAdd(0, 0));
    var s2 := Apply(s1, SessionGetsAdd(0, 0));
    assert s2.conns[0].replies == {(0, OK)};
    assert s2.nodes[0].store == A;
    assert s2 == TWO_1A.(conns := [TWO_1.conns[0].(written := {0}, replies := {(0, OK)})]);
    StepReachable(s2, ConnGetsReply(0, 0, OK));
    var s3 := Apply(s2, ConnGetsReply(0, 0, OK));
    assert s3.conns[0].out == OLD_CONN.out;
    assert s3 == TWO_1A;
  }

  const TWO_1B := TWO_1A.(chans := [OLD_ASK], nodes := [SecondaryNode.Node(A, false, None)])
  const TWO_1C := TWO_1A.(chans := [OLD_ASK, NEW_ASK.(conn := None)], nodes := [SecondaryNode.Node(A, false, Some(1))])

  lemma {:induction false} TwiceBreaks()
    requires Reachable(TWO_1A)
    ensures Reachable(TWO_1B)
  {
    hide R.Start, R.OnReply, AfterCallback, IssueAll, MasterNode.Add, SecondaryNode.RunSession;
    StepReachable(TWO_1A, SessionBreaks(0));
    var t := Apply(TWO_1A, SessionBreaks(0));
    assert t.chans[0].out == OLD_ASK.out;
    assert t == TWO_1B;
  }

  lemma {:induction false} TwiceReconnects()
    requires Reachable(TWO_1B)
    ensures Reachable(TWO_1C)
  {
    hide R.Start, R.OnReply, AfterCallback, IssueAll, MasterNode.Add;
    StepReachable(TWO_1B, SessionRuns(0));
    var t := Apply(TWO_1B, SessionRuns(0));
    GapIsUnique(A, 0, 1);
    assert t.chans[1].out == NEW_ASK.out;
    assert t == TWO_1C;
  }

  lemma {:induction false} TwiceRegistered()
    requires Reachable(TWO_1C)
    ensures Reachable(TWO_2)
  {
    hide R.Start, R.OnReply, AfterCallback, IssueAll, SecondaryNode.RunSession;
    StepReachable(TWO_1C, MasterAccepts(1));
    var t := Apply(TWO_1C, MasterAccepts(1));
    assert t.chans == [OLD_ASK, NEW_ASK];
    assert t.conns == TWO_2.conns;
    assert t.registry == JOINED_TWICE;
    assert t == TWO_2;
  }

  lemma TwicePhase2b()
    requires Reachable(TWO_1A)
    ensures Reachable(TWO_2)
  {
    TwiceBreaks();
    TwiceReconnects();
    TwiceRegistered();
  }

  lemma {:induction false} TwicePhase2()
    requires Reachable(TWO_1)
    ensures Reachable(TWO_2)
  {
    TwicePhase2a();
    TwicePhase2b();
  }

  /** The first confirmation counts, and the second connection is asked as well. */
  const TWO_3 := TWO_2.(requests := map[0 := ROUND_2],
    conns := [OLD_CONN.(fired := {0}), Conn(1, Table([THE_CALL], {0}, map[]), {}, {}, {}, {}, A)])

  lemma {:induction false} TwiceCalls()
    ensures IssueAll([OLD_CONN.(fired := {0}), TWO_2.conns[1]], {1}, AddCall(0, TWO_2.storage.messages[0]))
            == TWO_3.conns
  {
    hide Enabled, Apply;
    var conns := IssueAll([OLD_CONN.(fired := {0}), TWO_2.conns[1]], {1}, AddCall(0, TEXT_A));
    assert conns[1].out == TWO_3.conns[1].out;
  }

  lemma {:induction false} TwicePhase3()
    requires Reachable(TWO_2)
    ensures Reachable(TWO_3)
  {
    hide R.OnReply, Apply, IssueAll, Reachable;
    StepReachable(TWO_2, RequestCallback(0, 0));
    assert TWO_2.registry.entries.Keys == {0, 1};
    ReplyAsksAgain();
    CallbackStep(TWO_2, 0, 0, 0, ROUND_2, {1});
    hide Enabled, ReplyOf;
    TwiceCalls();
    assert OLD_CONN.fired + {0} == {0};
    assert TWO_2.conns[0 := OLD_CONN.(fired := {0})] == [OLD_CONN.(fired := {0}), TWO_2.conns[1]];
    assert TWO_2.requests[0 := ROUND_2] == TWO_3.requests;
  }

  /** The same node confirms again, and the message counts as confirmed by two. */
  const TWO_4 := TWO_3.(requests := map[0 := CONFIRMED_2],
    conns := [OLD_CONN.(fired := {0}),
              Conn(1, Table([THE_CALL], {}, map[0 := Answer(OK)]), {0}, {(0, OK)}, {0}, {}, A)])

  const TWO_3A := TWO_3.(conns := [TWO_3.conns[0], TWO_3.conns[1].(written := {0})])
  const TWO_3B := TWO_3.(conns := [TWO_3.conns[0], TWO_3.conns[1].(written := {0}, replies := {(0, OK)})])
  const TWO_3C := TWO_3.(conns := [TWO_3.conns[0], TWO_4.conns[1].(fired := {})])

  lemma {:induction false} TwiceWritten()
    requires Reachable(TWO_3)
    ensures Reachable(TWO_3A)
  {
    hide R.Start, R.OnReply, AfterCallback, IssueAll, MasterNode.Add, SecondaryNode.RunSession;
    StepReachable(TWO_3, ConnWrites(1, 0));
    var t := Apply(TWO_3, ConnWrites(1, 0));
    assert t.conns[1].written == {0};
    assert t == TWO_3A;
  }

  lemma {:induction false} TwiceStored()
    requires Reachable(TWO_3A)
    ensures Reachable(TWO_3B)
  {
    hide R.Start, R.OnReply, AfterCallback, IssueAll, MasterNode.Add, SecondaryNode.RunSession;
    StepReachable(TWO_3A, SessionGetsAdd(1, 0));
    var t := Apply(TWO_3A, SessionGetsAdd(1, 0));
    assert t.conns[1].replies == {(0, OK)};
    assert t.nodes == TWO_3.nodes;
    assert t == TWO_3B;
  }

  lemma {:induction false} TwiceReplied()
    requires Reachable(TWO_3B)
    ensures Reachable(TWO_3C)
  {
    hide R.Start, R.OnReply, AfterCallback, IssueAll, WithRequest, NewSession, NewConn, Parse, ReplyOf, ResolveAll,
      MasterNode.Add, MasterNode.Drop, MasterNode.Ready, SecondaryNode.RunSession, SecondaryNode.OnAddMessage,
      SecondaryNode.Disconnect, MasterStorage.Reserve, MasterStorage.Insert, MasterStorage.Advance;
    StepReachable(TWO_3B, ConnGetsReply(1, 0, OK));
    var t := Apply(TWO_3B, ConnGetsReply(1, 0, OK));
    assert t.conns[1].out == TWO_4.conns[1].out;
    assert t == TWO_3C;
  }

  lemma {:induction false} TwiceConfirmedCalls()
    ensures IssueAll(TWO_4.conns, {}, AddCall(0, TWO_4.storage.messages[0])) == TWO_4.conns
  {
    hide Enabled, Apply;
  }

  lemma {:induction false} TwiceConfirmed()
    requires Reachable(TWO_3C)
    ensures Reachable(TWO_4)
  {
    hide R.OnReply, Apply, IssueAll, Reachable;
    StepReachable(TWO_3C, RequestCallback(1, 0));
    assert TWO_3C.registry.entries.Keys == {0, 1};
    ReplyConfirms();
    CallbackStep(TWO_3C, 1, 0, 0, CONFIRMED_2, {});
    hide Enabled, ReplyOf;
    TwiceConfirmedCalls();
    assert TWO_3C.conns[1].fired + {0} == {0};
    assert TWO_3C.conns[1 := TWO_3C.conns[1].(fired := {0})] == TWO_4.conns;
    assert TWO_3C.requests[0 := CONFIRMED_2] == TWO_4.requests;
  }

  lemma TwicePhase4()
    requires Reachable(TWO_3)
    ensures Reachable(TWO_4)
  {
    TwiceWritten();
    TwiceStored();
    TwiceReplied();
    TwiceConfirmed();
  }

  /**
   The write concern counts connections, not nodes: here a message added with write concern 3
   is confirmed although only one secondary exists.
   */
  lemma {:induction false} WriteConcernNeedsOldConnectionGone() returns (s: State)
    ensures Reachable(s)
    ensures 0 in s.requests && s.requests[0].writeConcern == 2 && s.requests[0].promise == R.Fulfilled
    ensures |s.nodes| == 1 && !NodesDistinct(s)
  {
    TwicePhase1();
    TwicePhase2();
    TwicePhase3();
    TwicePhase4();
    s := TWO_4;
    assert 0 in s.registry.entries && 1 in s.registry.entries;
    assert NodeOf(s, 0) == 0 && NodeOf(s, 1) == 0;
  }
}
