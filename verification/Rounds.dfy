/**
 The rounds of the requests inside the system: each request is in a valid phase, and the
 callbacks it counts are exactly the calls on the connections whose callback has not run.
 */
module Rounds {
  import opened Wrappers
  import opened RequestTable
  import opened Protocol
  import opened Growth
  import opened Confirmations
  import MasterStorage
  import MasterNode
  import SecondaryNode
  import R = AddMessageRequest

  /** Call `i` of connection `id` still has its callback ahead. */
  ghost predicate LiveCall(conns: seq<Conn>, id: nat, i: nat) {
    id < |conns| && i < |conns[id].out.issued| && i !in conns[id].fired
  }

  ghost predicate HasCall(conns: seq<Conn>, id: nat, m: nat) {
    exists i: nat {:trigger conns[id].out.issued[i]} :: LiveCall(conns, id, i) && conns[id].out.issued[i].id == m
  }

  ghost predicate CallsCounted(conns: seq<Conn>, rs: map<nat, R.Request>) {
    forall id: nat, i: nat {:trigger conns[id].out.issued[i]} :: LiveCall(conns, id, i) ==>
      conns[id].out.issued[i].id in rs && id in rs[conns[id].out.issued[i].id].outstanding
  }

  ghost predicate CallsDistinct(conns: seq<Conn>) {
    forall id: nat, i: nat, j: nat {:trigger conns[id].out.issued[i], conns[id].out.issued[j]} ::
      LiveCall(conns, id, i) && LiveCall(conns, id, j) && i != j ==>
        conns[id].out.issued[i].id != conns[id].out.issued[j].id
  }

  ghost predicate OutstandingCalled(conns: seq<Conn>, rs: map<nat, R.Request>) {
    forall m, id {:trigger id in rs[m].outstanding} :: m in rs && id in rs[m].outstanding ==> HasCall(conns, id, m)
  }

  ghost predicate LifeOk(s: State) {
    forall m {:trigger s.requests[m]} {:trigger m in s.requests} :: m in s.requests ==>
      && R.Valid(s.requests[m])
      && forall id {:trigger id in s.requests[m].snapshot} :: id in s.requests[m].snapshot ==> id < |s.conns|
  }

  /** Whoever is registered was asked in the latest round, or was registered after the message was stored. */
  ghost predicate Covered(s: State) {
    forall m, id {:trigger s.requests[m], id in s.registry.entries} ::
      m in s.requests && s.requests[m].started && id in s.registry.entries && id < |s.conns| ==>
        id in s.requests[m].snapshot || m in s.conns[id].regSeen
  }

  ghost predicate RoundsOk(s: State) {
    && LifeOk(s) && Covered(s)
    && CallsCounted(s.conns, s.requests) && CallsDistinct(s.conns) && OutstandingCalled(s.conns, s.requests)
  }

  // ---- the calls of one request change ----

  /** Call `i` of the old connections is still there, and a new one can only be at the end. */
  lemma {:induction false} IssuedCalls(conns: seq<Conn>, targets: set<nat>, call: AddCall, id: nat, i: nat)
    requires LiveCall(IssueAll(conns, targets, call), id, i)
    ensures i < |conns[id].out.issued| ==>
      LiveCall(conns, id, i) && IssueAll(conns, targets, call)[id].out.issued[i] == conns[id].out.issued[i]
    ensures i >= |conns[id].out.issued| ==>
      i == |conns[id].out.issued| && id in targets && IssueAll(conns, targets, call)[id].out.issued[i] == call
  {
  }

  lemma {:induction false} CallPersists(conns: seq<Conn>, targets: set<nat>, call: AddCall, id: nat, m: nat)
    requires HasCall(conns, id, m)
    ensures HasCall(IssueAll(conns, targets, call), id, m)
  {
    var i: nat :| LiveCall(conns, id, i) && conns[id].out.issued[i].id == m;
    var r := IssueAll(conns, targets, call);
    assert LiveCall(r, id, i) && r[id].out.issued[i].id == m;
  }

  lemma {:induction false} CallIssued(conns: seq<Conn>, targets: set<nat>, call: AddCall, id: nat)
    requires id in targets && id < |conns| && |conns[id].out.issued| !in conns[id].fired
    ensures HasCall(IssueAll(conns, targets, call), id, call.id)
  {
    var r := IssueAll(conns, targets, call);
    var i := |conns[id].out.issued|;
    assert LiveCall(r, id, i) && r[id].out.issued[i].id == call.id;
  }

  lemma FiredAt(conns: seq<Conn>, id: nat)
    requires FiredInRange(conns) && id < |conns|
    ensures |conns[id].out.issued| !in conns[id].fired
  {
  }

  ghost predicate FiredInRange(conns: seq<Conn>) {
    forall id {:trigger conns[id]} :: 0 <= id < |conns| ==> |conns[id].out.issued| !in conns[id].fired
  }

  /**
   A request keeps the callbacks in `keep` and gets those of `targets`; `conns` has no other
   live call of it.
   */
  lemma {:induction false} RoundChange(conns: seq<Conn>, rs: map<nat, R.Request>, call: AddCall, r: R.Request,
                                       keep: set<nat>, targets: set<nat>)
    requires FiredInRange(conns) && call.id in rs
    requires forall id: nat, i: nat {:trigger conns[id].out.issued[i]} :: LiveCall(conns, id, i) ==>
      if conns[id].out.issued[i].id == call.id then id in keep
      else conns[id].out.issued[i].id in rs && id in rs[conns[id].out.issued[i].id].outstanding
    requires CallsDistinct(conns)
    requires forall m, id {:trigger id in rs[m].outstanding} ::
      m in rs && m != call.id && id in rs[m].outstanding ==> HasCall(conns, id, m)
    requires forall id :: id in keep ==> HasCall(conns, id, call.id)
    requires keep !! targets && r.outstanding == keep + targets
    requires forall id :: id in targets ==> id < |conns|
    ensures var conns', rs' := IssueAll(conns, targets, call), rs[call.id := r];
      CallsCounted(conns', rs') && CallsDistinct(conns') && OutstandingCalled(conns', rs')
  {
    hide IssueAll, Issue, HasCall, FiredInRange;
    var conns', rs' := IssueAll(conns, targets, call), rs[call.id := r];
    forall id: nat, i: nat | LiveCall(conns', id, i)
      ensures conns'[id].out.issued[i].id in rs' && id in rs'[conns'[id].out.issued[i].id].outstanding
    {
      IssuedCalls(conns, targets, call, id, i);
    }
    forall id: nat, i: nat, j: nat | LiveCall(conns', id, i) && LiveCall(conns', id, j) && i != j
      ensures conns'[id].out.issued[i].id != conns'[id].out.issued[j].id
    {
      IssuedCalls(conns, targets, call, id, i);
      IssuedCalls(conns, targets, call, id, j);
    }
    forall m, id | m in rs' && id in rs'[m].outstanding ensures HasCall(conns', id, m) {
      if m != call.id || id in keep {
        CallPersists(conns, targets, call, id, m);
      } else {
        FiredAt(conns, id);
        CallIssued(conns, targets, call, id);
      }
    }
  }

  // ---- the steps ----

  lemma {:induction false} FiredInRangeOk(s: State)
    requires WellFormed(s)
    ensures FiredInRange(s.conns)
  {
    forall id | 0 <= id < |s.conns| ensures |s.conns[id].out.issued| !in s.conns[id].fired {
      assert TableOk(s.conns[id].out, s.conns[id].written, s.conns[id].fired);
    }
  }

  lemma {:induction false} MembersInRange(s: State)
    requires WellFormed(s)
    ensures forall id :: id in s.registry.entries ==> id < |s.conns|
  {
  }

  lemma {:induction false} StartRounds(s: State, m: nat)
    requires WellFormed(s) && RoundsOk(s) && Enabled(s, RequestStarts(m))
    ensures RoundsOk(Apply(s, RequestStarts(m)))
  {
    hide R.Start, WellFormed, Conserved, R.Valid, R.Settled;
    var r, members := s.requests[m], Some(s.registry.entries.Keys);
    var (q, targets) := R.Start(r, members);
    R.ReadyToStart(r);
    R.StartKeepsValid(r, members);
    MembersInRange(s);
    FiredInRangeOk(s);
    RoundChange(s.conns, s.requests, AddCall(m, s.storage.messages[m]), q, {}, targets);
    StartCovers(s, m, q, targets);
  }

  /** A request whose snapshot is the present registry is covered. */
  lemma {:induction false} StartCovers(s: State, m: nat, q: R.Request, targets: set<nat>)
    requires LifeOk(s) && Covered(s) && m in s.storage.messages && R.Valid(q)
    requires q.snapshot == s.registry.entries.Keys ||
             (m in s.requests && s.requests[m].started && q.snapshot == s.requests[m].snapshot)
    requires forall id :: id in s.registry.entries ==> id < |s.conns|
    ensures LifeOk(WithRequest(s, m, q, targets)) && Covered(WithRequest(s, m, q, targets))
  {
    hide R.Valid;
    var t := WithRequest(s, m, q, targets);
    forall k, id | k in t.requests && t.requests[k].started && id in t.registry.entries && id < |t.conns|
      ensures id in t.requests[k].snapshot || k in t.conns[id].regSeen
    {
      assert t.conns[id].regSeen == s.conns[id].regSeen;
      assert id in s.registry.entries;
      if k != m || q.snapshot != s.registry.entries.Keys {
        assert k in s.requests && s.requests[k].started;
      }
    }
  }

  /** The connections after the callback of call `i` was taken off the queue. */
  function Fire(conns: seq<Conn>, id: nat, i: nat): seq<Conn>
    requires id < |conns|
  {
    conns[id := conns[id].(fired := conns[id].fired + {i})]
  }

  /** Firing the one live call that `id` has for a message leaves the calls of all others. */
  lemma {:induction false} FireCalls(conns: seq<Conn>, rs: map<nat, R.Request>, id: nat, i: nat)
    requires LiveCall(conns, id, i) && FiredInRange(conns)
    requires CallsCounted(conns, rs) && CallsDistinct(conns) && OutstandingCalled(conns, rs)
    ensures var c, m := Fire(conns, id, i), conns[id].out.issued[i].id;
      && FiredInRange(c) && CallsDistinct(c)
      && (forall k: nat, j: nat {:trigger c[k].out.issued[j]} :: LiveCall(c, k, j) ==>
            if c[k].out.issued[j].id == m then m in rs && k in rs[m].outstanding - {id}
            else c[k].out.issued[j].id in rs && k in rs[c[k].out.issued[j].id].outstanding)
      && (forall n, k {:trigger k in rs[n].outstanding} ::
            n in rs && k in rs[n].outstanding && !(n == m && k == id) ==> HasCall(c, k, n))
  {
    var c, m := Fire(conns, id, i), conns[id].out.issued[i].id;
    forall k: nat, j: nat | LiveCall(c, k, j)
      ensures LiveCall(conns, k, j) && c[k].out.issued[j] == conns[k].out.issued[j]
      ensures if c[k].out.issued[j].id == m then m in rs && k in rs[m].outstanding - {id}
              else c[k].out.issued[j].id in rs && k in rs[c[k].out.issued[j].id].outstanding
    {
      assert LiveCall(conns, k, j);
      if k == id {
        assert j != i;
        assert conns[id].out.issued[j].id != conns[id].out.issued[i].id;
      }
    }
    forall n, k | n in rs && k in rs[n].outstanding && !(n == m && k == id) ensures HasCall(c, k, n) {
      assert HasCall(conns, k, n);
      var j: nat :| LiveCall(conns, k, j) && conns[k].out.issued[j].id == n;
      assert LiveCall(c, k, j) && c[k].out.issued[j].id == n;
    }
  }

  lemma {:induction false} CallbackRounds(s: State, id: nat, i: nat)
    requires WellFormed(s) && RoundsOk(s) && Enabled(s, RequestCallback(id, i))
    ensures RoundsOk(Apply(s, RequestCallback(id, i)))
  {
    hide R.OnReply, WellFormed, Conserved, R.Valid, HasCall;
    var m := s.conns[id].out.issued[i].id;
    var r, members := s.requests[m], Some(s.registry.entries.Keys);
    var reply := ReplyOf(s.conns[id].out.resolved[i]);
    var (q, targets) := R.OnReply(r, id, reply, members);
    assert LiveCall(s.conns, id, i);
    assert id in r.outstanding;
    R.OnReplyKeepsValid(r, id, reply, members);
    MembersInRange(s);
    FiredInRangeOk(s);
    FireCalls(s.conns, s.requests, id, i);
    var u := s.(conns := Fire(s.conns, id, i));
    var keep := r.outstanding - {id};
    if r.outstanding == {id} {
      assert keep == {};
      assert q.outstanding == targets;
      TargetsInSnapshot(q);
    }
    RoundChange(u.conns, s.requests, AddCall(m, s.storage.messages[m]), q, keep, targets);
    FireCovers(s, id, i);
    StartedWhenOutstanding(r, id);
    StartCovers(u, m, q, targets);
  }

  lemma TargetsInSnapshot(q: R.Request)
    requires R.Valid(q)
    ensures q.outstanding <= q.snapshot
  {
  }

  lemma StartedWhenOutstanding(r: R.Request, id: nat)
    requires R.Valid(r) && id in r.outstanding
    ensures r.started
  {
  }

  lemma FireCovers(s: State, id: nat, i: nat)
    requires LifeOk(s) && Covered(s) && id < |s.conns|
    ensures LifeOk(s.(conns := Fire(s.conns, id, i))) && Covered(s.(conns := Fire(s.conns, id, i)))
  {
    var u := s.(conns := Fire(s.conns, id, i));
    assert forall k :: 0 <= k < |s.conns| ==> u.conns[k].regSeen == s.conns[k].regSeen;
  }

  /** Steps that leave the requests, the calls and what has fired alone. */
  lemma {:induction false} CallsStay(
      conns: seq<Conn>, conns': seq<Conn>, rs: map<nat, R.Request>, rs': map<nat, R.Request>)
    requires CallsCounted(conns, rs) && CallsDistinct(conns) && OutstandingCalled(conns, rs)
    requires |conns| <= |conns'|
    requires forall k {:trigger conns[k]} {:trigger conns'[k]} :: 0 <= k < |conns| ==>
      conns'[k].out.issued == conns[k].out.issued && conns'[k].fired == conns[k].fired
    requires forall k {:trigger conns'[k]} :: |conns| <= k < |conns'| ==> conns'[k].out.issued == []
    requires rs.Keys <= rs'.Keys
    requires forall m {:trigger rs'[m]} :: m in rs' ==> if m in rs then rs'[m] == rs[m] else rs'[m].outstanding == {}
    ensures CallsCounted(conns', rs') && CallsDistinct(conns') && OutstandingCalled(conns', rs')
  {
    forall id: nat, i: nat | LiveCall(conns', id, i)
      ensures LiveCall(conns, id, i) && conns'[id].out.issued[i] == conns[id].out.issued[i]
      ensures conns'[id].out.issued[i].id in rs' && id in rs'[conns'[id].out.issued[i].id].outstanding
    {
      assert LiveCall(conns, id, i);
    }
    forall id: nat, i: nat, j: nat | LiveCall(conns', id, i) && LiveCall(conns', id, j) && i != j
      ensures conns'[id].out.issued[i].id != conns'[id].out.issued[j].id
    {
      assert LiveCall(conns, id, i) && LiveCall(conns, id, j);
    }
    forall m, id | m in rs' && id in rs'[m].outstanding ensures HasCall(conns', id, m) {
      assert HasCall(conns, id, m);
      var i: nat :| LiveCall(conns, id, i) && conns[id].out.issued[i].id == m;
      assert LiveCall(conns', id, i) && conns'[id].out.issued[i].id == m;
    }
  }

  lemma {:induction false} OtherRounds(s: State, e: Step)
    requires WellFormed(s) && RoundsOk(s) && Enabled(s, e) && !e.RequestStarts? && !e.RequestCallback?
    requires Grows(s, Apply(s, e))
    ensures RoundsOk(Apply(s, e))
  {
    hide WellFormed, RoundsOk, Grows, Apply, CallsCounted, CallsDistinct, OutstandingCalled, R.Valid;
    OtherStepsOnCalls(s, e);
    RoundsParts(s);
    var t := Apply(s, e);
    CallsStay(s.conns, t.conns, s.requests, t.requests);
    OtherCovered(s, e);
    RoundsWhole(t);
  }

  lemma RoundsParts(s: State)
    requires RoundsOk(s)
    ensures LifeOk(s) && Covered(s)
    ensures CallsCounted(s.conns, s.requests) && CallsDistinct(s.conns) && OutstandingCalled(s.conns, s.requests)
  {
  }

  lemma RoundsWhole(s: State)
    requires LifeOk(s) && Covered(s)
    requires CallsCounted(s.conns, s.requests) && CallsDistinct(s.conns) && OutstandingCalled(s.conns, s.requests)
    ensures RoundsOk(s)
  {
  }

  lemma CounterIsNew(s: State)
    requires WellFormed(s)
    ensures s.registry.counter == |s.conns|
  {
  }

  lemma ReservedHasNoRequest(s: State, m: nat)
    requires WellFormed(s) && m in s.storage.reserved
    ensures m !in s.requests
  {
    hide ConnsOk, ChansOk, NodesOk;
    assert m !in s.storage.messages;
  }

  /** The steps that leave every connection of the master alone. */
  ghost predicate Elsewhere(e: Step) {
    || e.NodeStarts? || e.SessionRuns? || e.SessionWrites? || e.SessionFails? || e.SessionDelivers?
    || e.SessionCallback? || e.SessionBreaks? || e.ScanBegins? || e.ScanFinds? || e.RegistryDrops?
    || e.Reserves? || e.Inserts?
  }

  lemma {:induction false} ElsewhereOnConns(s: State, e: Step)
    requires Enabled(s, e) && Elsewhere(e)
    ensures Apply(s, e).conns == s.conns
  {
    hide AfterCallback, SecondaryNode.RunSession, Resolve, ResolveAll, MasterStorage.Insert;
  }

  lemma AcceptOnConns(s: State, e: Step)
    requires Enabled(s, e) && e.MasterAccepts?
    ensures Apply(s, e).conns == s.conns + [NewConn(e.chan, s.storage.messages)]
  {
    hide NewConn;
  }

  /** The connection that a step of the wire is about. */
  ghost function ConnOf(s: State, e: Step): nat
    requires Enabled(s, e) && !Elsewhere(e) && !e.MasterAccepts? && !e.RequestStarts? && !e.RequestCallback?
  {
    if e.ScanEnds? then s.reader.value.conn else e.conn
  }

  lemma {:induction false} WireOnConns(s: State, e: Step)
    requires Enabled(s, e) && !Elsewhere(e) && !e.MasterAccepts? && !e.RequestStarts? && !e.RequestCallback?
    ensures ConnOf(s, e) < |s.conns| == |Apply(s, e).conns|
    ensures var a, b := s.conns[ConnOf(s, e)], Apply(s, e).conns[ConnOf(s, e)];
      && Apply(s, e).conns == s.conns[ConnOf(s, e) := b]
      && b.out.issued == a.out.issued && b.fired == a.fired && b.regSeen == a.regSeen
  {
    hide Alive, SecondaryNode.OnAddMessage, MasterNode.Ready;
    var t := Apply(s, e);
    assert t.conns == s.conns ==> s.conns == s.conns[ConnOf(s, e) := s.conns[ConnOf(s, e)]];
  }

  /** Calls and fired callbacks change in the steps of requests only. */
  lemma {:induction false} OtherStepsOnConns(s: State, e: Step)
    requires Enabled(s, e) && !e.RequestStarts? && !e.RequestCallback?
    ensures var t := Apply(s, e);
      && |s.conns| <= |t.conns|
      && (forall k {:trigger s.conns[k]} {:trigger t.conns[k]} :: 0 <= k < |s.conns| ==>
            && t.conns[k].out.issued == s.conns[k].out.issued && t.conns[k].fired == s.conns[k].fired
            && t.conns[k].regSeen == s.conns[k].regSeen)
      && (forall k {:trigger t.conns[k]} :: |s.conns| <= k < |t.conns| ==>
            t.conns[k].out.issued == [] && t.conns[k].regSeen == s.storage.messages)
  {
    hide Apply, Enabled;
    if Elsewhere(e) {
      ElsewhereOnConns(s, e);
    } else if e.MasterAccepts? {
      AcceptOnConns(s, e);
    } else {
      WireOnConns(s, e);
    }
  }

  /** Registering adds one connection, and no other step adds any. */
  lemma {:induction false} ConnCount(s: State, e: Step)
    requires Enabled(s, e)
    ensures |Apply(s, e).conns| == |s.conns| + if e.MasterAccepts? then 1 else 0
  {
    if e.MasterAccepts? {
      AcceptOnConns(s, e);
    } else if e.RequestStarts? || e.RequestCallback? {
      hide R.Start, R.OnReply;
    } else if Elsewhere(e) {
      ElsewhereOnConns(s, e);
    } else {
      WireOnConns(s, e);
    }
  }

  lemma {:induction false} OnlyAcceptRegisters(s: State, e: Step)
    requires Enabled(s, e)
    ensures Apply(s, e).registry.entries.Keys <=
            if e.MasterAccepts? then s.registry.entries.Keys + {s.registry.counter} else s.registry.entries.Keys
  {
    hide R.Start, R.OnReply, AfterCallback, SecondaryNode.RunSession, Resolve, ResolveAll;
  }

  lemma {:induction false} RequestsStay(s: State, e: Step)
    requires Enabled(s, e)
    ensures s.requests.Keys <= Apply(s, e).requests.Keys
  {
    hide R.Start, R.OnReply, AfterCallback, SecondaryNode.RunSession, Resolve, ResolveAll, IssueAll, MasterNode.Ready;
  }

  lemma {:induction false} OtherStepsOnCalls(s: State, e: Step)
    requires WellFormed(s) && Enabled(s, e) && !e.RequestStarts? && !e.RequestCallback?
    ensures var t := Apply(s, e);
      && |s.conns| <= |t.conns|
      && (forall k {:trigger s.conns[k]} {:trigger t.conns[k]} :: 0 <= k < |s.conns| ==>
            && t.conns[k].out.issued == s.conns[k].out.issued && t.conns[k].fired == s.conns[k].fired
            && t.conns[k].regSeen == s.conns[k].regSeen)
      && (forall k {:trigger t.conns[k]} :: |s.conns| <= k < |t.conns| ==>
            t.conns[k].out.issued == [] && t.conns[k].regSeen == s.storage.messages)
      && s.requests.Keys <= t.requests.Keys
      && (forall m {:trigger t.requests[m]} :: m in t.requests ==>
            if m in s.requests then t.requests[m] == s.requests[m]
            else t.requests[m] == R.New(t.requests[m].writeConcern))
      && (forall id {:trigger id in t.registry.entries} :: id in t.registry.entries ==>
            id in s.registry.entries || (e.MasterAccepts? && id == |s.conns|))
  {
    hide Apply;
    OtherStepsOnConns(s, e);
    OnlyAcceptRegisters(s, e);
    RequestsStay(s, e);
    CounterIsNew(s);
    var t := Apply(s, e);
    forall m | m in t.requests
      ensures if m in s.requests then t.requests[m] == s.requests[m]
              else t.requests[m] == R.New(t.requests[m].writeConcern)
    {
      RequestChange(s, e, m);
      if e.Inserts? {
        InsertedIsReserved(s, e);
        ReservedHasNoRequest(s, e.id);
      }
    }
  }

  lemma InsertedIsReserved(s: State, e: Step)
    requires Enabled(s, e) && e.Inserts?
    ensures e.id in s.storage.reserved
  {
  }

  lemma {:induction false} OtherCovered(s: State, e: Step)
    requires WellFormed(s) && LifeOk(s) && Covered(s) && Enabled(s, e) && !e.RequestStarts? && !e.RequestCallback?
    ensures LifeOk(Apply(s, e)) && Covered(Apply(s, e))
  {
    hide Apply, R.Valid;
    OtherStepsOnCalls(s, e);
    var t := Apply(s, e);
    forall m | m in t.requests
      ensures R.Valid(t.requests[m])
      ensures forall id :: id in t.requests[m].snapshot ==> id < |t.conns|
    {
      NewIsValid(t.requests[m].writeConcern);
    }
    forall m, id | m in t.requests && t.requests[m].started && id in t.registry.entries && id < |t.conns|
      ensures id in t.requests[m].snapshot || m in t.conns[id].regSeen
    {
      assert m in s.requests;
      if id < |s.conns| {
        assert id in s.registry.entries;
      }
    }
  }

  lemma NewIsValid(wc: nat)
    ensures R.Valid(R.New(wc))
  {
  }

  lemma {:induction false} StepRounds(s: State, e: Step)
    requires WellFormed(s) && RoundsOk(s) && Enabled(s, e)
    ensures RoundsOk(Apply(s, e))
  {
    hide WellFormed, RoundsOk, Apply, Grows;
    match e {
      case RequestStarts(m) => StartRounds(s, m);
      case RequestCallback(id, i) => CallbackRounds(s, id, i);
      case _ =>
        StepGrows(s, e);
        OtherRounds(s, e);
    }
  }
}
