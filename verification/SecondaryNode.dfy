/**
 A secondary process: its storage, its connection to the master and what the callbacks of
 that connection do.  `SecondaryNode` and the `MasterSession` it owns are one object here,
 because a session has no state of its own besides the connection.
 */
module SecondaryNode {
  import opened Wrappers
  import opened Logs
  import SecondaryStorage

  /** Connections are numbered; `session` is the one that is alive. */
  datatype Node = Node(store: Log, operational: bool, session: Option<nat>)

  /** What a session asks the master. */
  datatype Call = GetMessages(start: nat) | NodeReady

  const FRESH := Node(map[], false, None)

  function Disconnect(n: Node): Node {
    n.(session := None, operational := false)
  }

  /** A new session starts by asking for everything from the first gap on. */
  function RunSession(n: Node, chan: nat): (Node, Call) {
    (Disconnect(n).(session := Some(chan)), GetMessages(FirstGap(n.store)))
  }

  /** The answer to `GetMessages(gap)`; a failure asks again from what is then the first gap. */
  function OnMessages(n: Node, gap: nat, texts: Option<seq<Message>>): (Node, Call) {
    match texts
    case Some(ts) => (n.(store := SecondaryStorage.InsertAll(n.store, gap, ts), operational := true), NodeReady)
    case None => (n, GetMessages(FirstGap(n.store)))
  }

  /** The answer to `NodeReady`; a failure repeats it. */
  function OnReadyAck(acknowledged: bool): Option<Call> {
    if acknowledged then None else Some(NodeReady)
  }

  function OnAddMessage(n: Node, id: nat, text: Message): Node {
    n.(store := SecondaryStorage.Insert(n.store, id, text))
  }

  class SecondaryNode {
    const storage: SecondaryStorage.Storage
    var operational: bool
    var session: Option<nat>

    ghost function Abs(): Node
      reads this, storage
    {
      Node(storage.messages, operational, session)
    }

    constructor ()
      ensures Abs() == FRESH && fresh(storage)
    {
      storage := new SecondaryStorage.Storage();
      operational, session := false, None;
    }

    method DisconnectMasterSession()
      modifies this
      ensures Abs() == Disconnect(old(Abs()))
      ensures session == None && !operational
    {
      session := None;
      operational := false;
    }

    method RunMasterSession(chan: nat) returns (call: Call)
      modifies this
      ensures (Abs(), call) == RunSession(old(Abs()), chan)
      ensures session == Some(chan) && !operational && call == GetMessages(FirstGap(storage.messages))
    {
      DisconnectMasterSession();
      session := Some(chan);
      call := AskForMessages();
    }

    method AskForMessages() returns (call: Call)
      ensures call == GetMessages(FirstGap(storage.messages))
    {
      var gap := storage.GetFirstGap();
      call := GetMessages(gap);
    }

    method OnMessagesReceived(gap: nat, response: Option<seq<Message>>) returns (call: Call)
      modifies this, storage
      ensures (Abs(), call) == OnMessages(old(Abs()), gap, response)
      ensures session == old(session)
      ensures response.Some? ==> operational && call == NodeReady
      ensures response.Some? ==> forall k: nat ::
        k in storage.messages <==> k in old(storage.messages) || gap <= k < gap + |response.value|
      ensures response.Some? ==> forall k :: k in storage.messages ==>
        storage.messages[k] == if k in old(storage.messages) then old(storage.messages)[k] else response.value[k - gap]
      ensures response.None? ==> operational == old(operational) && storage.messages == old(storage.messages)
      ensures response.None? ==> call == GetMessages(FirstGap(storage.messages))
    {
      if response.Some? {
        SecondaryStorage.InsertAllContents(storage.messages, gap, response.value);
        storage.AddMessages(gap, response.value);
        OnSessionOperational();
        call := NodeReady;
      } else {
        call := AskForMessages();
      }
    }

    /** The answer to `NodeReady`: announces itself again unless it was acknowledged. */
    method OnReadyAnswered(acknowledged: bool) returns (call: Option<Call>)
      ensures call == OnReadyAck(acknowledged)
      ensures !acknowledged ==> call == Some(NodeReady)
      ensures acknowledged ==> call == None
    {
      if acknowledged {
        return None;
      }
      call := Some(NodeReady);
    }

    method OnSessionOperational()
      modifies this
      ensures Abs() == old(Abs()).(operational := true)
    {
      operational := true;
    }

    method OnIncomingAddMessage(id: nat, text: Message) returns (accepted: bool)
      modifies storage
      ensures Abs() == OnAddMessage(old(Abs()), id, text) && accepted
      ensures id !in old(storage.messages) ==> storage.messages == old(storage.messages)[id := text]
      ensures id in old(storage.messages) ==> storage.messages == old(storage.messages)
    {
      storage.AddMessage(id, text);
      accepted := true;
    }
  }
}
