/**
 How a message gets to a node: sent on its own, or inside a chunk that one of the node's
 sessions stores.  There is no third way.
 */
module Delivery {
  import opened Wrappers
  import opened Protocol
  import opened Agreement
  import Growth
  import opened Runs
  import SecondaryStorage

  /** The node receives message `m` on its own. */
  ghost predicate SendsSingly(s: State, e: Step, n: nat, m: nat) {
    && e.SessionGetsAdd? && Enabled(s, e)
    && NodeOf(s, e.conn) == n && s.conns[e.conn].out.issued[e.req].id == m
  }

  /** The callback of a `GetMessages` that was answered. */
  ghost predicate StoresChunk(s: State, e: Step) {
    && e.SessionCallback? && Enabled(s, e)
    && s.chans[e.chan].out.issued[e.req].GetMessages?
    && s.chans[e.chan].out.resolved[e.req].Answer? && s.chans[e.chan].out.resolved[e.req].value.Texts?
  }

  /** The chunk that is stored has a text for id `m`. */
  ghost predicate ChunkCovers(s: State, e: Step, m: nat)
    requires StoresChunk(s, e)
  {
    var d := s.chans[e.chan];
    d.out.issued[e.req].start <= m < d.out.issued[e.req].start + |d.out.resolved[e.req].value.texts|
  }

  ghost predicate BringsInChunk(s: State, e: Step, n: nat, m: nat) {
    StoresChunk(s, e) && s.chans[e.chan].node == n && ChunkCovers(s, e, m)
  }

  /** Step `j` of the run brings message `m` to node `n`. */
  ghost predicate BroughtAt(ss: seq<State>, es: seq<Step>, j: nat, n: nat, m: nat) {
    j < |ss| && j < |es| && (SendsSingly(ss[j], es[j], n, m) || BringsInChunk(ss[j], es[j], n, m))
  }

  lemma {:induction false} StepStored(s: State, e: Step, n: nat, m: nat)
    requires Enabled(s, e) && n < |Apply(s, e).nodes|
    ensures m in Apply(s, e).nodes[n].store <==>
            (n < |s.nodes| && m in s.nodes[n].store) || SendsSingly(s, e, n, m) || BringsInChunk(s, e, n, m)
  {
    hide Apply;
    StoreChange(s, e, n);
    if StoresChunk(s, e) && s.chans[e.chan].node == n {
      var d := s.chans[e.chan];
      var texts := d.out.resolved[e.req].value.texts;
      SecondaryStorage.InsertAllContents(s.nodes[n].store, d.out.issued[e.req].start, texts);
    }
  }

  lemma {:induction false} NodesStay(s: State, e: Step)
    requires Inv(s) && Enabled(s, e)
    ensures |s.nodes| <= |Apply(s, e).nodes|
  {
    hide Inv, Apply;
    StepInv(s, e);
  }

  /**
   In every run a node stores a message if and only if an earlier step sent it the message
   on its own or stored a chunk that covers it.
   */
  lemma {:induction false} StoredIff(ss: seq<State>, es: seq<Step>, i: nat, n: nat, m: nat)
    requires IsRun(ss, es) && i < |ss| && n < |ss[i].nodes|
    ensures m in ss[i].nodes[n].store <==> exists j: nat :: j < i && BroughtAt(ss, es, j, n, m)
    decreases i
  {
    hide Inv, Apply, Enabled, SendsSingly, BringsInChunk;
    if i > 0 {
      StepOf(ss, es, i - 1);
      RunInv(ss, es, i - 1);
      NodesStay(ss[i - 1], es[i - 1]);
      StepStored(ss[i - 1], es[i - 1], n, m);
      if n < |ss[i - 1].nodes| {
        StoredIff(ss, es, i - 1, n, m);
      } else {
        NothingBefore(ss, es, i - 1, n, m);
      }
      assert BroughtAt(ss, es, i - 1, n, m) <==>
        SendsSingly(ss[i - 1], es[i - 1], n, m) || BringsInChunk(ss[i - 1], es[i - 1], n, m);
    }
  }

  /** A node that does not exist yet is sent nothing. */
  lemma {:induction false} NothingBefore(ss: seq<State>, es: seq<Step>, i: nat, n: nat, m: nat)
    requires IsRun(ss, es) && i < |ss| && n >= |ss[i].nodes|
    ensures forall j: nat :: j < i ==> !BroughtAt(ss, es, j, n, m)
  {
    hide Inv, Apply, IsRun;
    forall j: nat | j < i ensures !BroughtAt(ss, es, j, n, m) {
      RunGrows(ss, es, j, i);
      FewerNodes(ss[j], ss[i]);
    }
  }

  lemma FewerNodes(s: State, t: State)
    requires Growth.Grows(s, t)
    ensures |s.nodes| <= |t.nodes|
  {
  }

  /** A stored chunk is recorded, with its request and texts. */
  lemma {:induction false} StoredIsAccepted(s: State, e: Step)
    requires StoresChunk(s, e)
    ensures var d := s.chans[e.chan];
      && e.chan < |Apply(s, e).chans|
      && Apply(s, e).chans[e.chan].accepted ==
         Some(Acceptance(e.req, d.out.resolved[e.req].value.texts, d.out.resolved[e.req].value.seen))
      && Apply(s, e).chans[e.chan].out.issued[..|d.out.issued|] == d.out.issued
  {
  }
}
