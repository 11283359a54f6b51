/**
 Everything that carries a text, from the calls of the master to the stores of the
 secondaries, carries the text that the master's log holds under the same id; and every
 answer on the way belongs to the request whose id it bears.
 */
module Agreement {
  import opened Logs
  import opened RequestTable
  import opened Protocol
  import opened Growth
  import MasterStorage
  import MasterNode
  import SecondaryNode
  import SecondaryStorage
  import R = AddMessageRequest

  /**
   A proper answer to `call`: a chunk that starts at the id the call asked for, matches the
   log, reaches the end of what was gap-free when its reading ended, and was read after the
   connection had been registered.
   */
  ghost predicate ReplyOk(call: SecondaryNode.Call, a: Reply, log: Log, regSeen: Log) {
    match call
    case GetMessages(g) =>
      && a.Texts?
      && Slice(g, a.texts, log)
      && SubLog(regSeen, a.seen) && SubLog(a.seen, log)
      && FirstGap(a.seen) <= g + |a.texts|
    case NodeReady => a.Ack?
  }

  ghost predicate StoresAgree(s: State) {
    forall n {:trigger s.nodes[n]} :: 0 <= n < |s.nodes| ==> SubLog(s.nodes[n].store, s.storage.messages)
  }

  ghost predicate CallsAgree(s: State) {
    forall id, i {:trigger s.conns[id].out.issued[i]} ::
      0 <= id < |s.conns| && 0 <= i < |s.conns[id].out.issued| ==>
        var call := s.conns[id].out.issued[i];
        call.id in s.storage.messages && s.storage.messages[call.id] == call.text
  }

  ghost predicate RegSeenOk(s: State) {
    forall id {:trigger s.conns[id]} :: 0 <= id < |s.conns| ==> SubLog(s.conns[id].regSeen, s.storage.messages)
  }

  ghost predicate ReaderOk(s: State) {
    s.reader.Some? ==>
      var r := s.reader.value;
      && Attached(s, r.conn)
      && r.req < |s.chans[s.conns[r.conn].chan].out.issued|
      && s.chans[s.conns[r.conn].chan].out.issued[r.req] == SecondaryNode.GetMessages(r.scan.start)
      && MasterStorage.ScanMatches(r.scan, s.storage.messages)
  }

  ghost predicate FrameOkAt(s: State, id: nat, f: Frame) {
    && Attached(s, id)
    && f.req < |s.chans[s.conns[id].chan].out.issued|
    && ReplyOk(s.chans[s.conns[id].chan].out.issued[f.req], f.reply, s.storage.messages, s.conns[id].regSeen)
  }

  ghost predicate FramesOk(s: State) {
    forall id, f {:trigger f in s.conns[id].served} ::
      0 <= id < |s.conns| && f in s.conns[id].served ==> FrameOkAt(s, id, f)
  }

  ghost predicate AnswerOkAt(s: State, c: nat, i: nat)
    requires c < |s.chans| && i in s.chans[c].out.resolved
  {
    s.chans[c].out.resolved[i].Answer? ==>
      && s.chans[c].conn.Some? && s.chans[c].conn.value < |s.conns|
      && i < |s.chans[c].out.issued|
      && ReplyOk(s.chans[c].out.issued[i], s.chans[c].out.resolved[i].value, s.storage.messages,
                 s.conns[s.chans[c].conn.value].regSeen)
  }

  ghost predicate AnswersOk(s: State) {
    forall c, i {:trigger i in s.chans[c].out.resolved} {:trigger s.chans[c].out.resolved[i]} ::
      0 <= c < |s.chans| && i in s.chans[c].out.resolved ==> AnswerOkAt(s, c, i)
  }

  ghost predicate Agrees(s: State) {
    && StoresAgree(s) && CallsAgree(s) && RegSeenOk(s)
    && ReaderOk(s) && FramesOk(s) && AnswersOk(s)
  }

  // ---- preservation ----

  lemma {:induction false} ReplyOkGrows(call: SecondaryNode.Call, a: Reply, log: Log, log': Log, regSeen: Log)
    requires ReplyOk(call, a, log, regSeen) && SubLog(log, log')
    ensures ReplyOk(call, a, log', regSeen)
  {
    if call.GetMessages? {
      SliceGrows(call.start, a.texts, log, log');
      SubLogTransitive(a.seen, log, log');
    }
  }

  /** The two steps that write to a store. */
  ghost function StoreAfter(s: State, e: Step, n: nat): Log
    requires Enabled(s, e) && n < |s.nodes|
  {
    match e
    case SessionCallback(c, i) =>
      if n == s.chans[c].node then AfterCallback(s.chans[c], s.nodes[n], i).1.store else s.nodes[n].store
    case SessionGetsAdd(id, i) =>
      if n == NodeOf(s, id) then
        SecondaryStorage.Insert(s.nodes[n].store, s.conns[id].out.issued[i].id, s.conns[id].out.issued[i].text)
      else s.nodes[n].store
    case _ => s.nodes[n].store
  }

  /** No other step changes a store, and a new node's is empty. */
  lemma {:induction false} StoreChange(s: State, e: Step, n: nat)
    requires Enabled(s, e) && n < |Apply(s, e).nodes|
    ensures Apply(s, e).nodes[n].store == if n < |s.nodes| then StoreAfter(s, e, n) else map[]
  {
    hide R.Start, R.OnReply, AfterCallback, MasterNode.Ready, Conserved, FirstGap, Resolve, ResolveAll, IssueAll;
  }

  lemma {:induction false} StoresKeep(s: State, e: Step)
    requires StoresAgree(s) && CallsAgree(s) && AnswersOk(s) && Enabled(s, e)
    requires Grows(s, Apply(s, e))
    ensures StoresAgree(Apply(s, e))
  {
    hide Apply, AfterCallback, AnswersOk;
    var t := Apply(s, e);
    forall n | 0 <= n < |t.nodes| ensures SubLog(t.nodes[n].store, t.storage.messages) {
      StoreChange(s, e, n);
      if n < |s.nodes| {
        if e.SessionCallback? {
          CallbackAgrees(s, e.chan, e.req);
        } else if e.SessionGetsAdd? {
          var call := s.conns[e.conn].out.issued[e.req];
          assert call.id in s.storage.messages;
        }
        assert SubLog(t.nodes[n].store, s.storage.messages);
        SubLogTransitive(t.nodes[n].store, s.storage.messages, t.storage.messages);
      }
    }
  }

  /** What a session's callback stores is part of the master's log. */
  lemma {:induction false} CallbackAgrees(s: State, c: nat, i: nat)
    requires StoresAgree(s) && AnswersOk(s) && Enabled(s, SessionCallback(c, i))
    ensures SubLog(AfterCallback(s.chans[c], s.nodes[s.chans[c].node], i).1.store, s.storage.messages)
  {
    var n := s.nodes[s.chans[c].node];
    var call, o := s.chans[c].out.issued[i], s.chans[c].out.resolved[i];
    assert AnswerOkAt(s, c, i);
    if call.GetMessages? && o.Answer? && o.value.Texts? {
      var store := SecondaryStorage.InsertAll(n.store, call.start, o.value.texts);
      SecondaryStorage.InsertAllContents(n.store, call.start, o.value.texts);
      forall k | k in store ensures k in s.storage.messages && store[k] == s.storage.messages[k] {
      }
    }
  }

  lemma {:induction false} CallsKeep(s: State, e: Step)
    requires WellFormed(s) && CallsAgree(s) && Enabled(s, e)
    requires Grows(s, Apply(s, e))
    ensures CallsAgree(Apply(s, e))
  {
    hide R.Start, R.OnReply, WellFormed, AfterCallback, MasterNode.Ready, Conserved;
    var t := Apply(s, e);
    forall id, i | 0 <= id < |t.conns| && 0 <= i < |t.conns[id].out.issued|
      ensures t.conns[id].out.issued[i].id in t.storage.messages
      ensures t.storage.messages[t.conns[id].out.issued[i].id] == t.conns[id].out.issued[i].text
    {
      if id < |s.conns| && i < |s.conns[id].out.issued| {
        assert ConnGrows(s.conns[id], t.conns[id]);
        assert t.conns[id].out.issued[i] == s.conns[id].out.issued[i];
      } else {
        NewCalls(s, e, id, i);
      }
    }
  }

  /** A call that was not there before the step is one of the request that just started a round. */
  lemma {:induction false} NewCalls(s: State, e: Step, id: nat, i: nat)
    requires Enabled(s, e) && id < |Apply(s, e).conns| && i < |Apply(s, e).conns[id].out.issued|
    requires id >= |s.conns| || i >= |s.conns[id].out.issued|
    ensures e.RequestStarts? || e.RequestCallback?
    ensures id < |s.conns| && i == |s.conns[id].out.issued|
    ensures var m := if e.RequestStarts? then e.id else s.conns[e.conn].out.issued[e.req].id;
      m in s.storage.messages && Apply(s, e).conns[id].out.issued[i] == AddCall(m, s.storage.messages[m])
  {
    hide R.Start, R.OnReply, AfterCallback, MasterNode.Ready;
  }

  lemma {:induction false} RegSeenKeep(s: State, e: Step)
    requires RegSeenOk(s) && Enabled(s, e)
    requires Grows(s, Apply(s, e))
    ensures RegSeenOk(Apply(s, e))
  {
    hide R.Start, R.OnReply, AfterCallback, MasterNode.Ready;
    var t := Apply(s, e);
    forall id | 0 <= id < |t.conns| ensures SubLog(t.conns[id].regSeen, t.storage.messages) {
      if id < |s.conns| {
        assert ConnGrows(s.conns[id], t.conns[id]);
        SubLogTransitive(s.conns[id].regSeen, s.storage.messages, t.storage.messages);
      } else {
        assert e.MasterAccepts?;
      }
    }
  }

  lemma {:induction false} ReaderStays(s: State, t: State)
    requires ReaderOk(s) && Grows(s, t) && t.reader == s.reader
    ensures ReaderOk(t)
  {
    hide Later, Conserved, FirstGap;
    if s.reader.Some? {
      var r := s.reader.value;
      assert ConnGrows(s.conns[r.conn], t.conns[r.conn]);
      assert SessionGrows(s.chans[s.conns[r.conn].chan], t.chans[s.conns[r.conn].chan]);
      IssuedStays(s.chans[s.conns[r.conn].chan], t.chans[s.conns[r.conn].chan]);
      SliceGrows(r.scan.start, r.scan.texts, s.storage.messages, t.storage.messages);
    }
  }

  lemma IssuedStays(a: Session, b: Session)
    requires SessionGrows(a, b)
    ensures a.out.issued <= b.out.issued
  {
  }

  lemma {:induction false} ScanAdvances(s: State)
    requires ReaderOk(s) && Enabled(s, ScanFinds)
    ensures ReaderOk(Apply(s, ScanFinds))
  {
    var r := s.reader.value;
    assert r.scan.Pos() in s.storage.messages;
  }

  lemma {:induction false} ReaderKeep(s: State, e: Step)
    requires ReaderOk(s) && Enabled(s, e)
    requires Grows(s, Apply(s, e))
    ensures ReaderOk(Apply(s, e))
  {
    match e {
      case ScanBegins(id, i) => hide Grows;
      case ScanFinds => hide Grows; ScanAdvances(s);
      case ScanEnds => hide Grows;
      case _ =>
        hide R.Start, R.OnReply, AfterCallback, MasterNode.Ready, Grows, ReaderOk;
        ReaderStays(s, Apply(s, e));
    }
  }

  lemma {:induction false} FrameStays(s: State, t: State, id: nat, f: Frame)
    requires FramesOk(s) && Grows(s, t) && id < |s.conns| && f in s.conns[id].served
    ensures FrameOkAt(t, id, f)
  {
    hide Later, Conserved, FirstGap, SubLog, ReplyOk;
    var c := s.conns[id].chan;
    assert FrameOkAt(s, id, f);
    assert ConnGrows(s.conns[id], t.conns[id]);
    assert SessionGrows(s.chans[c], t.chans[c]);
    IssuedStays(s.chans[c], t.chans[c]);
    ReplyOkGrows(s.chans[c].out.issued[f.req], f.reply, s.storage.messages, t.storage.messages, s.conns[id].regSeen);
  }

  /** A frame that was not on the wire before the step is the chunk of the scan or an acknowledgement. */
  lemma {:induction false} NewFrames(s: State, e: Step, id: nat, f: Frame)
    requires Enabled(s, e) && id < |Apply(s, e).conns| && f in Apply(s, e).conns[id].served
    requires id >= |s.conns| || f !in s.conns[id].served
    ensures id < |s.conns| && Apply(s, e).chans == s.chans && Apply(s, e).storage == s.storage
    ensures Apply(s, e).conns[id].chan == s.conns[id].chan && Apply(s, e).conns[id].regSeen == s.conns[id].regSeen
    ensures e.ScanEnds? || e.MasterGetsReady?
    ensures e.ScanEnds? ==>
      id == s.reader.value.conn && f == Frame(s.reader.value.req, Texts(s.reader.value.scan.texts, s.storage.messages))
    ensures e.MasterGetsReady? ==> id == e.conn && f == Frame(e.req, Ack)
  {
    hide R.Start, R.OnReply, AfterCallback, MasterNode.Ready;
  }

  lemma {:induction false} FramesKeep(s: State, e: Step)
    requires ReaderOk(s) && RegSeenOk(s) && FramesOk(s) && Enabled(s, e)
    requires Grows(s, Apply(s, e))
    ensures FramesOk(Apply(s, e))
  {
    hide Apply, Grows, ReplyOk;
    var t := Apply(s, e);
    forall id, f | 0 <= id < |t.conns| && f in t.conns[id].served
      ensures FrameOkAt(t, id, f)
    {
      if id < |s.conns| && f in s.conns[id].served {
        FrameStays(s, t, id, f);
      } else {
        NewFrames(s, e, id, f);
        if e.ScanEnds? {
          ScanIsReply(s);
        } else {
          AckIsReply(s.storage.messages, s.conns[id].regSeen);
        }
      }
    }
  }

  /** The chunk a finished scan has collected is a proper answer. */
  lemma {:induction false} ScanIsReply(s: State)
    requires ReaderOk(s) && RegSeenOk(s) && Enabled(s, ScanEnds)
    ensures var r := s.reader.value;
      ReplyOk(s.chans[s.conns[r.conn].chan].out.issued[r.req], Texts(r.scan.texts, s.storage.messages),
              s.storage.messages, s.conns[r.conn].regSeen)
  {
    var r := s.reader.value;
    MasterStorage.FinishedScanReaches(r.scan, s.storage.messages, s.storage.messages);
  }

  lemma AckIsReply(log: Log, regSeen: Log)
    ensures ReplyOk(SecondaryNode.NodeReady, Ack, log, regSeen)
  {
  }

  lemma {:induction false} AnswerStays(s: State, t: State, c: nat, i: nat)
    requires AnswersOk(s) && Grows(s, t) && c < |s.chans| && i in s.chans[c].out.resolved
    ensures i in t.chans[c].out.resolved && AnswerOkAt(t, c, i)
  {
    hide Conserved, ReplyOk, SubLog;
    assert SessionGrows(s.chans[c], t.chans[c]);
    assert AnswerOkAt(s, c, i);
    if s.chans[c].out.resolved[i].Answer? {
      assert ConnGrows(s.conns[s.chans[c].conn.value], t.conns[s.chans[c].conn.value]);
      ReplyOkGrows(s.chans[c].out.issued[i], s.chans[c].out.resolved[i].value, s.storage.messages,
                   t.storage.messages, s.conns[s.chans[c].conn.value].regSeen);
    }
  }

  /** A request that a step answers is answered by a frame that was on its connection. */
  lemma {:induction false} NewAnswers(s: State, e: Step, c: nat, i: nat)
    requires Enabled(s, e) && c < |Apply(s, e).chans| && i in Apply(s, e).chans[c].out.resolved
    requires c >= |s.chans| || i !in s.chans[c].out.resolved
    requires Apply(s, e).chans[c].out.resolved[i].Answer?
    ensures e.SessionDelivers? && c == e.chan && c < |s.chans| && i == e.frame.req
    ensures Apply(s, e).conns == s.conns && Apply(s, e).storage == s.storage
    ensures Apply(s, e).chans[c].conn == s.chans[c].conn && Apply(s, e).chans[c].out.issued == s.chans[c].out.issued
    ensures s.chans[c].conn.Some? && s.chans[c].conn.value < |s.conns|
    ensures e.frame in s.conns[s.chans[c].conn.value].served
    ensures Apply(s, e).chans[c].out.resolved[i].value == e.frame.reply
  {
    hide R.Start, R.OnReply, MasterNode.Ready, Conserved, FirstGap, SecondaryStorage.InsertAll;
  }

  lemma {:induction false} AnswersKeep(s: State, e: Step)
    requires ChansOk(s) && AnswersOk(s) && FramesOk(s) && Enabled(s, e)
    requires Grows(s, Apply(s, e))
    ensures AnswersOk(Apply(s, e))
  {
    hide Apply, Grows, ReplyOk, TableOk;
    var t := Apply(s, e);
    forall c, i | 0 <= c < |t.chans| && i in t.chans[c].out.resolved
      ensures AnswerOkAt(t, c, i)
    {
      if c < |s.chans| && i in s.chans[c].out.resolved {
        AnswerStays(s, t, c, i);
      } else if t.chans[c].out.resolved[i].Answer? {
        NewAnswers(s, e, c, i);
        assert FrameOkAt(s, s.chans[c].conn.value, e.frame);
      }
    }
  }

  lemma {:induction false} StepAgrees(s: State, e: Step)
    requires WellFormed(s) && Agrees(s) && Enabled(s, e)
    ensures Agrees(Apply(s, e))
  {
    hide WellFormed, Grows, Apply, StoresAgree, CallsAgree, RegSeenOk, ReaderOk, FramesOk, AnswersOk;
    StepGrows(s, e);
    StoresKeep(s, e);
    CallsKeep(s, e);
    RegSeenKeep(s, e);
    ReaderKeep(s, e);
    FramesKeep(s, e);
    assert ChansOk(s) by { SessionsWellFormed(s); }
    AnswersKeep(s, e);
  }

  lemma SessionsWellFormed(s: State)
    requires WellFormed(s)
    ensures ChansOk(s)
  {
  }
}
