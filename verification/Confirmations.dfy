/**
 A confirmation is never premature: from the secondary's answer on the wire to the statuses
 and the success of the request, every success stands for a store that holds the message.
 */
module Confirmations {
  import opened Wrappers
  import opened Logs
  import opened RequestTable
  import opened Protocol
  import opened Growth
  import MasterNode
  import SecondaryNode
  import R = AddMessageRequest

  /** The secondary behind connection `id` has stored message `m`. */
  ghost predicate Holds(s: State, id: nat, m: nat) {
    Attached(s, id) && NodeOf(s, id) < |s.nodes| && m in s.nodes[NodeOf(s, id)].store
  }

  ghost predicate RepliesOk(s: State) {
    forall id, p {:trigger p in s.conns[id].replies} ::
      0 <= id < |s.conns| && p in s.conns[id].replies ==>
        p.1 == OK && p.0 < |s.conns[id].out.issued| && Holds(s, id, s.conns[id].out.issued[p.0].id)
  }

  ghost predicate ResultOkAt(s: State, id: nat, i: nat)
    requires id < |s.conns| && i in s.conns[id].out.resolved
  {
    s.conns[id].out.resolved[i].Answer? ==>
      && s.conns[id].out.resolved[i].value == OK
      && i < |s.conns[id].out.issued| && Holds(s, id, s.conns[id].out.issued[i].id)
  }

  ghost predicate ResultsOk(s: State) {
    forall id, i {:trigger i in s.conns[id].out.resolved} {:trigger s.conns[id].out.resolved[i]} ::
      0 <= id < |s.conns| && i in s.conns[id].out.resolved ==> ResultOkAt(s, id, i)
  }

  ghost predicate RequestOk(s: State, m: nat, r: R.Request) {
    && (forall id {:trigger r.statuses[id]} {:trigger id in r.statuses} :: id in r.statuses ==>
          && r.statuses[id] != R.NOT_ADDED
          && (r.statuses[id] == R.ADDED ==> Holds(s, id, m)))
    && (r.confirmed.Some? ==> forall id {:trigger id in r.confirmed.value.ids} ::
          id in r.confirmed.value.ids ==> Holds(s, id, m))
  }

  ghost predicate RequestsOk(s: State) {
    forall m {:trigger s.requests[m]} {:trigger m in s.requests} :: m in s.requests ==> RequestOk(s, m, s.requests[m])
  }

  ghost predicate Confirmed(s: State) {
    RepliesOk(s) && ResultsOk(s) && RequestsOk(s)
  }

  lemma {:induction false} HoldsGrows(s: State, t: State, id: nat, m: nat)
    requires Holds(s, id, m) && Grows(s, t)
    ensures Holds(t, id, m)
  {
    hide Later, Conserved;
    assert ConnGrows(s.conns[id], t.conns[id]);
    assert SessionGrows(s.chans[s.conns[id].chan], t.chans[s.conns[id].chan]);
    assert SubLog(s.nodes[NodeOf(s, id)].store, t.nodes[NodeOf(s, id)].store);
  }

  lemma {:induction false} NewReplies(s: State, e: Step, id: nat, p: (nat, AddStatus))
    requires WellFormed(s) && Enabled(s, e) && id < |Apply(s, e).conns| && p in Apply(s, e).conns[id].replies
    requires id >= |s.conns| || p !in s.conns[id].replies
    ensures e.SessionGetsAdd? && id == e.conn && p == (e.req, OK)
    ensures Holds(Apply(s, e), id, s.conns[id].out.issued[e.req].id)
    ensures Apply(s, e).conns[id].out == s.conns[id].out
  {
    hide R.Start, R.OnReply, AfterCallback, MasterNode.Add, MasterNode.Ready, MasterNode.Drop, Resolve, ResolveAll,
      SecondaryNode.RunSession, SecondaryNode.Disconnect, NewSession, Parse, ReplyOf, Conserved, TableOk;
  }

  lemma {:induction false} CallStays(a: Conn, b: Conn)
    requires ConnGrows(a, b)
    ensures a.out.issued <= b.out.issued
    ensures forall i {:trigger b.out.resolved[i]} :: i in a.out.resolved ==>
      i in b.out.resolved && b.out.resolved[i] == a.out.resolved[i]
  {
  }

  lemma {:induction false} RepliesKeep(s: State, e: Step)
    requires WellFormed(s) && RepliesOk(s) && Enabled(s, e) && Grows(s, Apply(s, e))
    ensures RepliesOk(Apply(s, e))
  {
    hide Apply, Holds, ConnGrows, WellFormed;
    var t := Apply(s, e);
    forall id, p | 0 <= id < |t.conns| && p in t.conns[id].replies
      ensures p.1 == OK && p.0 < |t.conns[id].out.issued| && Holds(t, id, t.conns[id].out.issued[p.0].id)
    {
      if id < |s.conns| && p in s.conns[id].replies {
        CallStays(s.conns[id], t.conns[id]);
        HoldsGrows(s, t, id, s.conns[id].out.issued[p.0].id);
      } else {
        NewReplies(s, e, id, p);
        RepliedIsIssued(s, e);
      }
    }
  }

  lemma RepliedIsIssued(s: State, e: Step)
    requires Enabled(s, e) && e.SessionGetsAdd?
    ensures e.conn < |s.conns| && e.req < |s.conns[e.conn].out.issued|
  {
  }

  lemma {:induction false} NewResults(s: State, e: Step, id: nat, i: nat)
    requires Enabled(s, e) && id < |Apply(s, e).conns| && i in Apply(s, e).conns[id].out.resolved
    requires id >= |s.conns| || i !in s.conns[id].out.resolved
    requires Apply(s, e).conns[id].out.resolved[i].Answer?
    ensures e.ConnGetsReply? && id == e.conn && i == e.req && id < |s.conns|
    ensures Apply(s, e).conns[id].out.resolved[i].value == e.status && (i, e.status) in s.conns[id].replies
    ensures Apply(s, e).conns[id].out.issued == s.conns[id].out.issued
  {
    hide R.Start, R.OnReply, AfterCallback, MasterNode.Ready, Conserved, TableOk;
  }

  lemma {:induction false} ResultsKeep(s: State, e: Step)
    requires RepliesOk(s) && ResultsOk(s) && Enabled(s, e) && Grows(s, Apply(s, e))
    ensures ResultsOk(Apply(s, e))
  {
    hide Apply, Holds, ConnGrows;
    var t := Apply(s, e);
    forall id, i | 0 <= id < |t.conns| && i in t.conns[id].out.resolved
      ensures ResultOkAt(t, id, i)
    {
      if id < |s.conns| && i in s.conns[id].out.resolved {
        CallStays(s.conns[id], t.conns[id]);
        assert ResultOkAt(s, id, i);
        if s.conns[id].out.resolved[i].Answer? {
          HoldsGrows(s, t, id, s.conns[id].out.issued[i].id);
        }
      } else if t.conns[id].out.resolved[i].Answer? {
        NewResults(s, e, id, i);
        HoldsGrows(s, t, id, s.conns[id].out.issued[i].id);
      }
    }
  }

  lemma {:induction false} RequestOkGrows(s: State, t: State, m: nat, r: R.Request)
    requires RequestOk(s, m, r) && Grows(s, t)
    ensures RequestOk(t, m, r)
  {
    hide Grows, Holds;
    forall id | id in r.statuses && r.statuses[id] == R.ADDED ensures Holds(t, id, m) {
      HoldsGrows(s, t, id, m);
    }
    if r.confirmed.Some? {
      forall id | id in r.confirmed.value.ids ensures Holds(t, id, m) {
        HoldsGrows(s, t, id, m);
      }
    }
  }

  lemma {:induction false} GroundedIsOk(s: State, m: nat, r: R.Request, q: R.Request, statuses: map<nat, R.Status>)
    requires RequestOk(s, m, r) && R.Grounded(r, q, statuses)
    requires forall id :: id in statuses ==>
      statuses[id] != R.NOT_ADDED && (statuses[id] == R.ADDED ==> Holds(s, id, m))
    ensures RequestOk(s, m, q)
  {
  }

  /** What a step makes of the requests: all but one stay, and that one learns only what its replies say. */
  lemma {:induction false} RequestChange(s: State, e: Step, m: nat)
    requires Enabled(s, e) && m in Apply(s, e).requests
    ensures m in s.requests || (e.Inserts? && m == e.id)
    ensures m in s.requests && e.RequestStarts? && m == e.id ==>
      Apply(s, e).requests[m] == R.Start(s.requests[m], Some(s.registry.entries.Keys)).0
    ensures e.RequestCallback? && m == s.conns[e.conn].out.issued[e.req].id ==> (
      && m in s.requests
      && Apply(s, e).requests[m] ==
         R.OnReply(s.requests[m], e.conn, ReplyOf(s.conns[e.conn].out.resolved[e.req]),
                   Some(s.registry.entries.Keys)).0)
    ensures (m in s.requests && !(e.RequestStarts? && m == e.id) && !(e.Inserts? && m == e.id)
             && !(e.RequestCallback? && m == s.conns[e.conn].out.issued[e.req].id))
            ==> Apply(s, e).requests[m] == s.requests[m]
    ensures e.Inserts? && m == e.id ==>
      Apply(s, e).requests[m] == R.New(if e.writeConcern <= 1 then 0 else e.writeConcern - 1)
  {
    hide R.Start, R.OnReply, AfterCallback, MasterNode.Ready, Conserved;
  }

  lemma {:induction false} RequestsKeep(s: State, e: Step)
    requires ResultsOk(s) && RequestsOk(s) && Enabled(s, e) && Grows(s, Apply(s, e))
    ensures RequestsOk(Apply(s, e))
  {
    hide Apply, Grows, Holds, R.Start, R.OnReply, R.Grounded;
    var t := Apply(s, e);
    forall m | m in t.requests ensures RequestOk(t, m, t.requests[m]) {
      RequestChange(s, e, m);
      if m in s.requests {
        var r, members := s.requests[m], Some(s.registry.entries.Keys);
        RequestOkGrows(s, t, m, r);
        if e.RequestStarts? && m == e.id {
          R.StartIsGrounded(r, members);
          GroundedIsOk(t, m, r, t.requests[m], r.statuses);
        } else if e.RequestCallback? && m == s.conns[e.conn].out.issued[e.req].id {
          var reply := ReplyOf(s.conns[e.conn].out.resolved[e.req]);
          assert ResultOkAt(s, e.conn, e.req);
          if s.conns[e.conn].out.resolved[e.req].Answer? {
            HoldsGrows(s, t, e.conn, m);
          }
          R.OnReplyIsGrounded(r, e.conn, reply, members);
          GroundedIsOk(t, m, r, t.requests[m], r.statuses[e.conn := R.StatusOf(reply)]);
        }
      }
    }
  }

  lemma {:induction false} StepConfirmed(s: State, e: Step)
    requires WellFormed(s) && Confirmed(s) && Enabled(s, e)
    ensures Confirmed(Apply(s, e))
  {
    hide WellFormed, Grows, Apply, RepliesOk, ResultsOk, RequestsOk;
    StepGrows(s, e);
    RepliesKeep(s, e);
    ResultsKeep(s, e);
    RequestsKeep(s, e);
  }
}
