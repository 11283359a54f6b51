/**
 Matching answers to requests.  A request gets the next id, stays pending until it is
 answered, times out or the peer goes away, and is then resolved for good.  Whatever arrives
 later under its id is dropped.
 */
module RequestTable {
  import opened Wrappers

  datatype InvalidationReason = TIMEOUT | BAD_RESPONSE_FRAME | PEER_DISCONNECTED

  datatype Outcome<+A> = Answer(value: A) | Failed(reason: InvalidationReason)

  /** Request `i` is `issued[i]`; the id counter is the number of issued requests. */
  datatype Table<P, A> = Table(issued: seq<P>, pending: set<nat>, resolved: map<nat, Outcome<A>>)

  function NoRequests<P, A>(): Table<P, A> {
    Table([], {}, map[])
  }

  /** Issued requests split exactly into pending and resolved ones. */
  ghost predicate Conserved<P, A>(t: Table<P, A>) {
    && t.pending !! t.resolved.Keys
    && forall i: nat {:trigger i in t.pending} {:trigger i in t.resolved} ::
         i < |t.issued| <==> i in t.pending || i in t.resolved
  }

  function Issue<P, A>(t: Table<P, A>, p: P): Table<P, A> {
    t.(issued := t.issued + [p], pending := t.pending + {|t.issued|})
  }

  function Resolve<P, A>(t: Table<P, A>, id: nat, outcome: Outcome<A>): (u: Table<P, A>)
    ensures u.issued == t.issued
  {
    if id in t.pending then t.(pending := t.pending - {id}, resolved := t.resolved[id := outcome]) else t
  }

  function ResolveAll<P, A>(t: Table<P, A>, reason: InvalidationReason): (u: Table<P, A>)
    ensures u.issued == t.issued
  {
    t.(pending := {}, resolved := t.resolved + map i | i in t.pending :: Failed(reason))
  }

  /** A payload that does not parse fails the request instead of answering it. */
  function OutcomeOf<A>(decoded: Option<A>): Outcome<A> {
    if decoded.None? then Failed(BAD_RESPONSE_FRAME) else Answer(decoded.value)
  }

  /** Nothing that is resolved is ever resolved again, and no request is forgotten. */
  ghost predicate Later<P, A>(t: Table<P, A>, u: Table<P, A>) {
    && t.issued <= u.issued
    && t.resolved.Keys <= u.resolved.Keys
    && forall i {:trigger t.resolved[i]} {:trigger u.resolved[i]} :: i in t.resolved ==> u.resolved[i] == t.resolved[i]
  }

  lemma LaterSame<P, A>(t: Table<P, A>)
    ensures Later(t, t)
  {
  }

  lemma {:induction false} TableSteps<P, A>(
      t: Table<P, A>, p: P, id: nat, outcome: Outcome<A>, reason: InvalidationReason)
    requires Conserved(t)
    ensures Conserved(Issue(t, p)) && Later(t, Issue(t, p))
    ensures Conserved(Resolve(t, id, outcome)) && Later(t, Resolve(t, id, outcome))
    ensures Conserved(ResolveAll(t, reason)) && Later(t, ResolveAll(t, reason))
  {
    var u := Issue(t, p);
    forall i: nat
      ensures i < |u.issued| <==> i in u.pending || i in u.resolved
    {
      assert i < |t.issued| <==> i in t.pending || i in t.resolved;
    }
    assert |t.issued| !in t.resolved;
    ResolveAllConserves(t, reason);
  }

  lemma ResolveAllConserves<P, A>(t: Table<P, A>, reason: InvalidationReason)
    requires Conserved(t)
    ensures Conserved(ResolveAll(t, reason)) && Later(t, ResolveAll(t, reason))
  {
    var v := ResolveAll(t, reason);
    assert v.resolved.Keys == t.resolved.Keys + t.pending;
  }
}
