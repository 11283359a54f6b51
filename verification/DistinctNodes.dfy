/**
 Nodes behind connections.  The master counts connections; these lemmas say when different
 connections are different nodes: for the whole registry, and for any set of connections
 that were registered together.
 */
module DistinctNodes {
  import opened Logs
  import opened RequestTable
  import opened Protocol
  import opened Growth
  import opened Agreement
  import opened Confirmations
  import opened CatchUp
  import opened Rounds
  import opened Runs
  import R = AddMessageRequest

  /** No two registered connections belong to one node. */
  ghost predicate NodesDistinct(s: State) {
    forall a, b {:trigger a in s.registry.entries, b in s.registry.entries} ::
      a in s.registry.entries && b in s.registry.entries && a != b && Attached(s, a) && Attached(s, b) ==>
        NodeOf(s, a) != NodeOf(s, b)
  }

  /** No connection of the node behind session `c` is still registered. */
  ghost predicate OldConnectionGone(s: State, c: nat)
    requires c < |s.chans|
  {
    forall a {:trigger a in s.registry.entries} ::
      a in s.registry.entries && Attached(s, a) ==> NodeOf(s, a) != s.chans[c].node
  }

  /** Registering keeps the nodes distinct exactly when the node's old connection was removed before. */
  lemma {:induction false} AcceptKeepsNodesDistinctIff(s: State, c: nat)
    requires Inv(s) && Enabled(s, MasterAccepts(c))
    ensures NodesDistinct(Apply(s, MasterAccepts(c))) <==> NodesDistinct(s) && OldConnectionGone(s, c)
  {
    hide Agrees, Confirmed, CaughtUp, RoundsOk, Conserved, TableOk;
    var t := Apply(s, MasterAccepts(c));
    var added := |s.conns|;
    assert t.registry.entries.Keys == s.registry.entries.Keys + {added};
    assert forall a: nat :: Attached(t, a) <==> Attached(s, a) || a == added;
    assert forall a: nat :: Attached(s, a) ==> NodeOf(t, a) == NodeOf(s, a);
    assert NodeOf(t, added) == s.chans[c].node;
    assert added in t.registry.entries;
    if NodesDistinct(t) {
      forall a | a in s.registry.entries && Attached(s, a) ensures NodeOf(s, a) != s.chans[c].node {
        assert a in t.registry.entries && a != added;
      }
      forall a, b | a in s.registry.entries && b in s.registry.entries && a != b && Attached(s, a) && Attached(s, b)
        ensures NodeOf(s, a) != NodeOf(s, b)
      {
        assert a in t.registry.entries && b in t.registry.entries;
      }
    }
  }

  /** Before each registration in the run the node's old connection was removed. */
  ghost predicate OldRemovedFirst(ss: seq<State>, es: seq<Step>) {
    forall i {:trigger es[i]} :: 0 <= i < |es| && i < |ss| && es[i].MasterAccepts? && es[i].chan < |ss[i].chans| ==>
      OldConnectionGone(ss[i], es[i].chan)
  }

  lemma {:induction false} OthersKeepNodesDistinct(s: State, e: Step)
    requires Inv(s) && Enabled(s, e) && !e.MasterAccepts? && NodesDistinct(s) && Grows(s, Apply(s, e))
    ensures NodesDistinct(Apply(s, e))
  {
    hide Inv, Apply, Grows;
    OnlyAcceptRegisters(s, e);
    var t := Apply(s, e);
    forall a, b | a in t.registry.entries && b in t.registry.entries && a != b && Attached(t, a) && Attached(t, b)
      ensures NodeOf(t, a) != NodeOf(t, b)
    {
      assert a in s.registry.entries && b in s.registry.entries;
      RegisteredIsAttached(s, t, a);
      RegisteredIsAttached(s, t, b);
    }
  }

  lemma {:induction false} RunNodesDistinct(ss: seq<State>, es: seq<Step>, i: nat)
    requires IsRun(ss, es) && OldRemovedFirst(ss, es) && i < |ss|
    ensures NodesDistinct(ss[i])
    decreases i
  {
    hide Inv, Apply, NodesDistinct;
    if i == 0 {
      InitNodesDistinct();
    } else {
      RunNodesDistinct(ss, es, i - 1);
      RunInv(ss, es, i - 1);
      StepOf(ss, es, i - 1);
      StepInv(ss[i - 1], es[i - 1]);
      if es[i - 1].MasterAccepts? {
        AcceptKeepsNodesDistinctIff(ss[i - 1], es[i - 1].chan);
      } else {
        OthersKeepNodesDistinct(ss[i - 1], es[i - 1]);
      }
    }
  }

  /**
   The registered connections of every state of a run belong to different nodes exactly when
   before each registration the node's old connection was removed.
   */
  lemma {:induction false} NodesStayDistinctIff(ss: seq<State>, es: seq<Step>)
    requires IsRun(ss, es)
    ensures OldRemovedFirst(ss, es) <==> forall i {:trigger ss[i]} :: 0 <= i < |ss| ==> NodesDistinct(ss[i])
  {
    hide Inv, Apply, NodesDistinct, OldConnectionGone;
    if OldRemovedFirst(ss, es) {
      forall i | 0 <= i < |ss| ensures NodesDistinct(ss[i]) {
        RunNodesDistinct(ss, es, i);
      }
    }
    if forall i {:trigger ss[i]} :: 0 <= i < |ss| ==> NodesDistinct(ss[i]) {
      forall i | 0 <= i < |es| && es[i].MasterAccepts? && es[i].chan < |ss[i].chans|
        ensures OldConnectionGone(ss[i], es[i].chan)
      {
        RunInv(ss, es, i);
        StepOf(ss, es, i);
        AcceptKeepsNodesDistinctIff(ss[i], es[i].chan);
      }
    }
  }

  lemma InitNodesDistinct()
    ensures NodesDistinct(INIT)
  {
  }

  lemma {:induction false} RegisteredIsAttached(s: State, t: State, id: nat)
    requires Inv(s) && Grows(s, t) && id in s.registry.entries
    ensures Attached(s, id) && Attached(t, id) && NodeOf(s, id) == NodeOf(t, id)
  {
    hide Agrees, Confirmed, CaughtUp, RoundsOk, Later, SubLog, Conserved;
    assert id < |s.conns|;
    assert ConnGrows(s.conns[id], t.conns[id]);
    assert SessionGrows(s.chans[s.conns[id].chan], t.chans[s.conns[id].chan]);
  }

  // ---- counting nodes ----

  ghost function NodesOf(s: State, ids: set<nat>): set<nat>
    requires forall id :: id in ids ==> Attached(s, id)
  {
    set id | id in ids :: NodeOf(s, id)
  }

  lemma {:induction false} DistinctNodesCount(s: State, ids: set<nat>)
    requires forall id :: id in ids ==> Attached(s, id)
    requires forall a, b :: a in ids && b in ids && a != b ==> NodeOf(s, a) != NodeOf(s, b)
    ensures |NodesOf(s, ids)| == |ids|
    decreases |ids|
  {
    if ids != {} {
      var a :| a in ids;
      DistinctNodesCount(s, ids - {a});
      assert ids == ids - {a} + {a};
      assert NodesOf(s, ids) == NodesOf(s, ids - {a}) + {NodeOf(s, a)};
      assert NodeOf(s, a) !in NodesOf(s, ids - {a});
    }
  }

  lemma {:induction false} NodesOfSome(s: State, some: set<nat>, ids: set<nat>)
    requires some <= ids && forall id :: id in ids ==> Attached(s, id)
    ensures NodesOf(s, some) <= NodesOf(s, ids)
  {
  }

  lemma {:induction false} NodesOfAtMost(s: State, ids: set<nat>)
    requires forall id :: id in ids ==> Attached(s, id)
    ensures |NodesOf(s, ids)| <= |ids|
    decreases |ids|
  {
    if ids != {} {
      var a :| a in ids;
      NodesOfAtMost(s, ids - {a});
      assert NodesOf(s, ids) == NodesOf(s, ids - {a}) + {NodeOf(s, a)};
    }
  }

  lemma NodesOfOneMore(s: State, ids: set<nat>, a: nat)
    requires Attached(s, a) && forall id :: id in ids ==> Attached(s, id)
    ensures NodesOf(s, ids + {a}) == NodesOf(s, ids) + {NodeOf(s, a)}
  {
    hide NodeOf, Attached;
  }

  /** Two connections of one node: one node fewer. */
  lemma {:induction false} SharedNodeCount(s: State, ids: set<nat>, a: nat, b: nat)
    requires forall id :: id in ids ==> Attached(s, id)
    requires a in ids && b in ids && a != b && NodeOf(s, a) == NodeOf(s, b)
    ensures |NodesOf(s, ids)| < |ids|
  {
    assert b in ids - {a} && NodeOf(s, a) in NodesOf(s, ids - {a});
    assert NodesOf(s, ids) == NodesOf(s, ids - {a});
    NodesOfAtMost(s, ids - {a});
  }

  /** One connection for each node. */
  lemma {:induction false} Representatives(s: State, ids: set<nat>) returns (some: set<nat>)
    requires forall id :: id in ids ==> Attached(s, id)
    ensures some <= ids && NodesOf(s, some) == NodesOf(s, ids) && |some| == |NodesOf(s, ids)|
    decreases |ids|
  {
    hide NodeOf, Attached;
    if ids == {} {
      some := {};
    } else {
      var a :| a in ids;
      hide NodesOf;
      some := Representatives(s, ids - {a});
      NodesOfOneMore(s, ids - {a}, a);
      assert ids == ids - {a} + {a};
      if NodeOf(s, a) in NodesOf(s, ids - {a}) {
        assert NodesOf(s, ids - {a}) + {NodeOf(s, a)} == NodesOf(s, ids - {a});
      } else {
        NodesOfOneMore(s, some, a);
        some := some + {a};
      }
    }
  }

  // ---- connections that were registered together ----

  /**
   Up to state `j`: whenever one of `ids` was registered, no other of them was registered for
   the same node.
   */
  ghost predicate NeverTogether(ss: seq<State>, es: seq<Step>, j: nat, ids: set<nat>) {
    forall k: nat, a {:trigger es[k], a in ss[k].registry.entries} ::
      k < j && k < |es| && k < |ss| && es[k].MasterAccepts? && es[k].chan < |ss[k].chans|
      && |ss[k].conns| in ids && a in ids && a in ss[k].registry.entries && Attached(ss[k], a) ==>
        NodeOf(ss[k], a) != ss[k].chans[es[k].chan].node
  }

  /** A connection has its number from the one step that registered it. */
  lemma {:induction false} AcceptedBy(ss: seq<State>, es: seq<Step>, j: nat, b: nat) returns (k: nat)
    requires IsRun(ss, es) && j < |ss| && b < |ss[j].conns|
    ensures k < j && k < |es| && es[k].MasterAccepts? && |ss[k].conns| == b
    decreases j
  {
    hide Inv, Apply, Enabled;
    if j > 0 {
      StepOf(ss, es, j - 1);
      ConnCount(ss[j - 1], es[j - 1]);
      if b < |ss[j - 1].conns| {
        k := AcceptedBy(ss, es, j - 1, b);
      } else {
        k := j - 1;
      }
    }
  }

  /** Whoever is registered and had a number before was registered before. */
  lemma {:induction false} RegisteredBefore(ss: seq<State>, es: seq<Step>, k: nat, j: nat, a: nat)
    requires IsRun(ss, es) && k <= j < |ss| && a in ss[j].registry.entries && a < |ss[k].conns|
    ensures a in ss[k].registry.entries
    decreases j
  {
    hide Inv, Apply, Enabled;
    if k < j {
      StepOf(ss, es, j - 1);
      RunInv(ss, es, j - 1);
      OnlyAcceptRegisters(ss[j - 1], es[j - 1]);
      NumberIsCount(ss[j - 1]);
      ConnsOnlyGrow(ss, es, k, j - 1);
      RegisteredBefore(ss, es, k, j - 1, a);
    }
  }

  lemma NumberIsCount(s: State)
    requires Inv(s)
    ensures s.registry.counter == |s.conns|
  {
    hide Agrees, Confirmed, CaughtUp, RoundsOk, ConnsOk, ChansOk, NodesOk;
  }

  lemma {:induction false} ConnsOnlyGrow(ss: seq<State>, es: seq<Step>, k: nat, j: nat)
    requires IsRun(ss, es) && k <= j < |ss|
    ensures |ss[k].conns| <= |ss[j].conns|
  {
    hide Inv, IsRun;
    RunGrows(ss, es, k, j);
  }

  /** What registering session `c` makes of its connection, for good. */
  lemma {:induction false} AcceptedNode(ss: seq<State>, es: seq<Step>, k: nat, i: nat)
    requires IsRun(ss, es) && k < i < |ss| && es[k].MasterAccepts?
    ensures es[k].chan < |ss[k].chans| && Attached(ss[i], |ss[k].conns|)
    ensures NodeOf(ss[i], |ss[k].conns|) == ss[k].chans[es[k].chan].node
  {
    StepOf(ss, es, k);
    var b, c := |ss[k].conns|, es[k].chan;
    assert ss[k + 1].conns[b].chan == c && ss[k + 1].chans[c].node == ss[k].chans[c].node;
    hide IsRun, Inv, Apply, Enabled;
    RunInv(ss, es, k + 1);
    RunGrows(ss, es, k + 1, i);
    AttachedStays(ss[k + 1], ss[i], b);
  }

  lemma {:induction false} AttachedStays(s: State, t: State, id: nat)
    requires Grows(s, t) && Attached(s, id)
    ensures Attached(t, id) && NodeOf(t, id) == NodeOf(s, id)
  {
    hide Later, SubLog, Conserved;
    assert ConnGrows(s.conns[id], t.conns[id]);
    assert SessionGrows(s.chans[s.conns[id].chan], t.chans[s.conns[id].chan]);
  }

  /** Two connections registered in `ss[j]`, the second one numbered later. */
  lemma {:induction false} PairIsApart(ss: seq<State>, es: seq<Step>, j: nat, i: nat, ids: set<nat>, a: nat, b: nat)
    requires IsRun(ss, es) && j <= i < |ss| && ids <= ss[j].registry.entries.Keys && NeverTogether(ss, es, j, ids)
    requires a in ids && b in ids && a < b
    ensures Attached(ss[i], a) && Attached(ss[i], b) && NodeOf(ss[i], a) != NodeOf(ss[i], b)
  {
    hide Inv, Apply, Enabled;
    RunInv(ss, es, j);
    RegisteredIsAttached(ss[j], ss[j], b);
    var k := AcceptedBy(ss, es, j, b);
    RegisteredBefore(ss, es, k, j, a);
    AcceptedNode(ss, es, k, i);
    RunInv(ss, es, k);
    RunGrows(ss, es, k, i);
    hide IsRun;
    RegisteredIsAttached(ss[k], ss[i], a);
    assert a in ss[k].registry.entries && es[k].MasterAccepts?;
  }

  /**
   Connections that are registered together belong to as many nodes as they are, if and only
   if none of them was registered while another one of the same node was.
   */
  lemma {:induction false} DistinctNodesIff(ss: seq<State>, es: seq<Step>, j: nat, i: nat, ids: set<nat>)
    requires IsRun(ss, es) && j <= i < |ss| && ids <= ss[j].registry.entries.Keys
    ensures forall id :: id in ids ==> Attached(ss[i], id)
    ensures |NodesOf(ss[i], ids)| == |ids| <==> NeverTogether(ss, es, j, ids)
  {
    hide Inv, Apply, Enabled;
    RunInv(ss, es, j);
    RunGrows(ss, es, j, i);
    forall id | id in ids ensures Attached(ss[i], id) {
      RegisteredIsAttached(ss[j], ss[i], id);
    }
    if NeverTogether(ss, es, j, ids) {
      forall a, b | a in ids && b in ids && a != b ensures NodeOf(ss[i], a) != NodeOf(ss[i], b) {
        PairIsApart(ss, es, j, i, ids, if a < b then a else b, if a < b then b else a);
      }
      DistinctNodesCount(ss[i], ids);
    } else {
      var k: nat, a :| k < j && k < |es| && k < |ss| && es[k].MasterAccepts? && es[k].chan < |ss[k].chans|
        && |ss[k].conns| in ids && a in ids && a in ss[k].registry.entries && Attached(ss[k], a)
        && NodeOf(ss[k], a) == ss[k].chans[es[k].chan].node;
      AcceptedNode(ss, es, k, i);
      RunGrows(ss, es, k, i);
      AttachedStays(ss[k], ss[i], a);
      SharedNodeCount(ss[i], ids, a, |ss[k].conns|);
    }
  }

  /**
   They belong to at least `n` nodes if and only if there are `n` among them none of which
   was registered while another one of the same node was.
   */
  lemma {:induction false} EnoughNodesIff(ss: seq<State>, es: seq<Step>, j: nat, i: nat, ids: set<nat>, n: nat)
    requires IsRun(ss, es) && j <= i < |ss| && ids <= ss[j].registry.entries.Keys
    ensures forall id :: id in ids ==> Attached(ss[i], id)
    ensures |NodesOf(ss[i], ids)| >= n <==> exists some :: some <= ids && |some| >= n && NeverTogether(ss, es, j, some)
  {
    hide IsRun, NeverTogether;
    DistinctNodesIff(ss, es, j, i, ids);
    if |NodesOf(ss[i], ids)| >= n {
      var some := Representatives(ss[i], ids);
      DistinctNodesIff(ss, es, j, i, some);
    }
    if some :| some <= ids && |some| >= n && NeverTogether(ss, es, j, some) {
      DistinctNodesIff(ss, es, j, i, some);
      NodesOfSome(ss[i], some, ids);
      R.EqualSizes(NodesOf(ss[i], some), NodesOf(ss[i], ids));
    }
  }

  /** Removing old connections first is more than enough. */
  lemma OldRemovedFirstIsEnough(ss: seq<State>, es: seq<Step>, j: nat, ids: set<nat>)
    requires OldRemovedFirst(ss, es)
    ensures NeverTogether(ss, es, j, ids)
  {
  }
}
