/**
 The master's registry of connections.  Every accepted connection gets a number that is
 never used again; the registry maps the numbers of the connections that are not yet known
 to be broken to their state.
 */
module MasterNode {
  import opened Wrappers

  datatype SecondaryState = INVALIDATED | REGISTERING | OPERATIONAL

  datatype Registry = Registry(counter: nat, entries: map<nat, SecondaryState>)

  const EMPTY := Registry(0, map[])

  ghost predicate Valid(r: Registry) {
    && (forall id {:trigger id in r.entries} :: id in r.entries ==> id < r.counter)
    && (forall id {:trigger r.entries[id]} {:trigger id in r.entries} ::
          id in r.entries ==> r.entries[id] != INVALIDATED)
  }

  function Add(r: Registry): Registry {
    Registry(r.counter + 1, r.entries[r.counter := REGISTERING])
  }

  function Drop(r: Registry, id: nat): Registry {
    r.(entries := r.entries - {id})
  }

  /** A connection that was dropped meanwhile stays dropped, and gets no answer. */
  function Ready(r: Registry, id: nat): Registry {
    if id in r.entries then r.(entries := r.entries[id := OPERATIONAL]) else r
  }

  /** A number is registered for one connection only, and after a drop for none. */
  lemma {:induction false} NumbersAreNotReused(r: Registry, id: nat)
    requires Valid(r)
    ensures Valid(Add(r)) && Valid(Drop(r, id)) && Valid(Ready(r, id))
    ensures r.counter !in r.entries && id !in Drop(r, id).entries && Ready(Drop(r, id), id) == Drop(r, id)
    ensures Add(Drop(r, id)).entries.Keys == Drop(Add(r), id).entries.Keys + {r.counter}
  {
    assert Add(Drop(r, id)).entries.Keys == r.entries.Keys - {id} + {r.counter};
    assert Drop(Add(r), id).entries.Keys == r.entries.Keys + {r.counter} - {id};
  }

  // ---- any sequence of these operations ----

  datatype Event = Adds | Drops(id: nat) | Readies(id: nat)

  function After(r: Registry, es: seq<Event>): Registry
    decreases |es|
  {
    if es == [] then r
    else
      After(match es[0]
            case Adds => Add(r)
            case Drops(id) => Drop(r, id)
            case Readies(id) => Ready(r, id), es[1..])
  }

  /** Whatever happens later, a number that was given out and is not registered stays out. */
  lemma {:induction false} AbsentStaysOut(r: Registry, es: seq<Event>, id: nat)
    requires Valid(r) && id < r.counter && id !in r.entries
    ensures Valid(After(r, es)) && id < After(r, es).counter && id !in After(r, es).entries
    decreases |es|
  {
    if es != [] {
      match es[0] {
        case Adds =>
          NumbersAreNotReused(r, id);
          AbsentStaysOut(Add(r), es[1..], id);
        case Drops(other) =>
          NumbersAreNotReused(r, other);
          AbsentStaysOut(Drop(r, other), es[1..], id);
        case Readies(other) =>
          NumbersAreNotReused(r, other);
          AbsentStaysOut(Ready(r, other), es[1..], id);
      }
    }
  }

  /** A dropped connection is never registered again, nor operational, whatever follows. */
  lemma {:induction false} DropIsFinal(r: Registry, id: nat, es: seq<Event>)
    requires Valid(r) && id in r.entries
    ensures id !in After(Drop(r, id), es).entries
  {
    NumbersAreNotReused(r, id);
    AbsentStaysOut(Drop(r, id), es, id);
  }

  // ---- the classes ----

  /** `endpoint` names the endpoint the master talks to the secondary through. */
  datatype SecondarySnapshot = SecondarySnapshot(
    id: nat,
    friendlyName: Option<string>,
    state: SecondaryState,
    endpoint: nat)

  class Secondary {
    const id: nat
    const endpoint: nat
    var state: SecondaryState
    var friendlyName: Option<string>

    function Snapshot(): SecondarySnapshot
      reads this
    {
      SecondarySnapshot(id, friendlyName, state, endpoint)
    }

    constructor (id: nat, endpoint: nat)
      ensures Snapshot() == SecondarySnapshot(id, None, REGISTERING, endpoint)
    {
      this.id, this.endpoint := id, endpoint;
      state, friendlyName := REGISTERING, None;
    }
  }

  ghost function States(known: map<nat, SecondarySnapshot>): map<nat, SecondaryState> {
    map id | id in known :: known[id].state
  }

  lemma StatesAfter(known: map<nat, SecondarySnapshot>, id: nat, snapshot: SecondarySnapshot)
    ensures States(known[id := snapshot]) == States(known)[id := snapshot.state]
    ensures States(known - {id}) == States(known) - {id}
  {
  }

  lemma DropStates(counter: nat, known: map<nat, SecondarySnapshot>, id: nat)
    ensures Registry(counter, States(known - {id})) == Drop(Registry(counter, States(known)), id)
  {
    StatesAfter(known, id, SecondarySnapshot(0, None, INVALIDATED, 0));
  }

  class MasterNode {
    var secondaryIdCounter: nat
    var secondaries: map<nat, Secondary>

    /** Distinct numbers stand for distinct objects. */
    ghost predicate Numbered()
      reads this, secondaries.Values
    {
      forall id {:trigger secondaries[id]} {:trigger id in secondaries} ::
        id in secondaries ==> id < secondaryIdCounter && secondaries[id].id == id
    }

    ghost predicate Consistent()
      reads this, secondaries.Values
    {
      Numbered() && Valid(Abs())
    }

    ghost function Abs(): Registry
      reads this, secondaries.Values
    {
      Registry(secondaryIdCounter, States(Known()))
    }

    /** Everything known of every registered connection. */
    ghost function Known(): map<nat, SecondarySnapshot>
      reads this, secondaries.Values
    {
      map id | id in secondaries :: secondaries[id].Snapshot()
    }

    constructor ()
      ensures Consistent() && Abs() == EMPTY
    {
      secondaryIdCounter, secondaries := 0, map[];
    }

    method AddSecondaryImpl(endpoint: nat) returns (id: nat)
      requires Consistent()
      modifies this
      ensures Consistent() && Abs() == Add(old(Abs()))
      ensures id == old(secondaryIdCounter) && id !in old(secondaries)
      ensures Known() == old(Known())[id := SecondarySnapshot(id, None, REGISTERING, endpoint)]
    {
      id := secondaryIdCounter;
      ghost var known := Known();
      NumbersAreNotReused(Abs(), id);
      StatesAfter(known, id, SecondarySnapshot(id, None, REGISTERING, endpoint));
      hide Valid, States;
      var secondary := new Secondary(id, endpoint);
      secondaryIdCounter := secondaryIdCounter + 1;
      secondaries := secondaries[id := secondary];
      assert Known() == known[id := secondary.Snapshot()];
    }

    method SetInvalidated(secondaryId: nat)
      requires Numbered() && secondaryId in secondaries
      modifies secondaries[secondaryId]
      ensures Numbered()
      ensures Known() == old(Known())[secondaryId := old(Known())[secondaryId].(state := INVALIDATED)]
    {
      var secondary := secondaries[secondaryId];
      secondary.state := INVALIDATED;
    }

    method SetReady(secondaryId: nat, friendlyName: string)
      requires Numbered() && secondaryId in secondaries
      modifies secondaries[secondaryId]
      ensures Numbered()
      ensures Known() == old(Known())[secondaryId :=
        SecondarySnapshot(secondaryId, Some(friendlyName), OPERATIONAL, secondaries[secondaryId].endpoint)]
    {
      var secondary := secondaries[secondaryId];
      secondary.friendlyName := Some(friendlyName);
      secondary.state := OPERATIONAL;
    }

    method Erase(secondaryId: nat)
      requires Numbered()
      modifies this`secondaries
      ensures Numbered() && Known() == old(Known()) - {secondaryId}
    {
      ghost var known := Known();
      secondaries := secondaries - {secondaryId};
      assert Known() == known - {secondaryId};
    }

    method OnInvalidated(secondaryId: nat)
      requires Consistent()
      modifies this, secondaries.Values
      ensures Consistent() && Abs() == Drop(old(Abs()), secondaryId)
      ensures Known() == old(Known()) - {secondaryId}
    {
      ghost var known := Known();
      NumbersAreNotReused(Abs(), secondaryId);
      DropStates(secondaryIdCounter, known, secondaryId);
      hide Valid, States, Drop;
      if secondaryId !in secondaries {
        assert known == known - {secondaryId};
        return;
      }
      SetInvalidated(secondaryId);
      ghost var between := Known();
      assert between - {secondaryId} == known - {secondaryId};
      hide Known;
      Erase(secondaryId);
    }

    method OnIncomingSecondaryNodeReady(secondaryId: nat, friendlyName: string) returns (answered: bool)
      requires Consistent()
      modifies secondaries.Values
      ensures Consistent() && Abs() == Ready(old(Abs()), secondaryId)
      ensures answered <==> secondaryId in secondaries
      ensures answered ==> Known() == old(Known())[secondaryId :=
        SecondarySnapshot(secondaryId, Some(friendlyName), OPERATIONAL, old(secondaries[secondaryId].endpoint))]
      ensures !answered ==> Known() == old(Known())
    {
      answered := secondaryId in secondaries;
      if answered {
        ghost var known := Known();
        NumbersAreNotReused(Abs(), secondaryId);
        StatesAfter(known, secondaryId, SecondarySnapshot(
          secondaryId, Some(friendlyName), OPERATIONAL, secondaries[secondaryId].endpoint));
        hide Valid, States;
        SetReady(secondaryId, friendlyName);
      }
    }

    /** Every registered connection, whatever its state, in any order and without repetition. */
    method SecondariesSnapshot() returns (res: seq<SecondarySnapshot>)
      requires Consistent()
      ensures forall snapshot :: snapshot in res <==> snapshot.id in Known() && Known()[snapshot.id] == snapshot
      ensures forall i, j :: 0 <= i < j < |res| ==> res[i].id != res[j].id
    {
      res := [];
      var rest := secondaries.Keys;
      while rest != {}
        invariant rest <= secondaries.Keys
        invariant forall snapshot :: snapshot in res <==>
          snapshot.id in secondaries && snapshot.id !in rest && secondaries[snapshot.id].Snapshot() == snapshot
        invariant forall i, j :: 0 <= i < j < |res| ==> res[i].id != res[j].id
      {
        var id :| id in rest;
        ghost var before := res;
        assert forall i :: 0 <= i < |res| ==> res[i] in res;
        var snapshot := secondaries[id].Snapshot();
        res := res + [snapshot];
        rest := rest - {id};
        assert forall p :: p in res <==> p in before || p == snapshot;
      }
    }
  }
}
