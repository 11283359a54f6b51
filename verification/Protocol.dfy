/**
 The whole system as one state machine: a master, any number of secondaries, and one step
 per callback.  Frames that were written stay in a set for ever and may be delivered at any
 time, any number of times and in any order, or never.
 */
module Protocol {
  import opened Wrappers
  import opened Logs
  import opened RequestTable
  import MasterStorage
  import MasterNode
  import SecondaryNode
  import R = AddMessageRequest

  datatype AddCall = AddCall(id: nat, text: Message)
  datatype AddStatus = OK | NOT_ALLOWED

  /**
   What the master answers a secondary.  `seen` is history: the master's log at the moment
   of the lookup that ended the chunk.
   */
  datatype Reply = Texts(texts: seq<Message>, seen: Log) | Ack

  datatype Frame = Frame(req: nat, reply: Reply)

  /**
   The master's end of a connection.  `out` are its `AddMessage` requests, `written` those on
   the wire, `replies` the secondary's answers on the wire, `fired` the requests whose
   callback has run, `served` the master's answers on the wire.  `regSeen` is history: the
   master's log when the connection was registered.
   */
  datatype Conn = Conn(
    chan: nat,
    out: Table<AddCall, AddStatus>,
    written: set<nat>,
    replies: set<(nat, AddStatus)>,
    fired: set<nat>,
    served: set<Frame>,
    regSeen: Log)

  /** The chunk a session stored: the request it answered, its texts and its `seen`. */
  datatype Acceptance = Acceptance(req: nat, texts: seq<Message>, seen: Log)

  /**
   The secondary's end.  `conn` is the number the master gave the connection, once it did;
   `accepted` is history: the answer this session stored.
   */
  datatype Session = Session(
    node: nat,
    conn: Option<nat>,
    out: Table<SecondaryNode.Call, Reply>,
    written: set<nat>,
    fired: set<nat>,
    accepted: Option<Acceptance>)

  /** A chunk being read for request `req` of connection `conn`. */
  datatype Reader = Reader(conn: nat, req: nat, scan: MasterStorage.Scan)

  datatype State = State(
    storage: MasterStorage.Store,
    requests: map<nat, R.Request>,
    registry: MasterNode.Registry,
    conns: seq<Conn>,
    reader: Option<Reader>,
    chans: seq<Session>,
    nodes: seq<SecondaryNode.Node>)

  const INIT := State(MasterStorage.EMPTY, map[], MasterNode.EMPTY, [], None, [], [])

  datatype Step =
    // secondaries
    | NodeStarts
    | SessionRuns(node: nat)
    | SessionWrites(chan: nat, req: nat)
    | SessionFails(chan: nat, req: nat)
    | SessionDelivers(chan: nat, frame: Frame)
    | SessionCallback(chan: nat, req: nat)
    | SessionBreaks(chan: nat)
    | SessionGetsAdd(conn: nat, req: nat)
    // the master's registry and catch-up server
    | MasterAccepts(chan: nat)
    | ScanBegins(conn: nat, req: nat)
    | ScanFinds
    | ScanEnds
    | MasterGetsReady(conn: nat, req: nat)
    | RegistryDrops(conn: nat)
    // messages
    | Reserves(text: Message)
    | Inserts(id: nat, writeConcern: nat)
    | RequestStarts(id: nat)
    | ConnWrites(conn: nat, req: nat)
    | ConnFails(conn: nat, req: nat)
    | ConnBreaks(conn: nat)
    | ConnGetsReply(conn: nat, req: nat, status: AddStatus)
    | RequestCallback(conn: nat, req: nat)

  /** A session runs its callbacks only while its node still owns it. */
  ghost predicate Alive(s: State, c: nat) {
    c < |s.chans| && s.chans[c].node < |s.nodes| && s.nodes[s.chans[c].node].session == Some(c)
  }

  /** The session behind a connection of the master. */
  ghost predicate Attached(s: State, id: nat) {
    id < |s.conns| && s.conns[id].chan < |s.chans|
  }

  ghost predicate Enabled(s: State, e: Step) {
    match e
    case NodeStarts => true
    case SessionRuns(n) => n < |s.nodes|
    case SessionWrites(c, i) => Alive(s, c) && i < |s.chans[c].out.issued|
    case SessionFails(c, i) => Alive(s, c) && i in s.chans[c].out.pending
    case SessionDelivers(c, f) =>
      && Alive(s, c) && s.chans[c].conn.Some? && s.chans[c].conn.value < |s.conns|
      && f in s.conns[s.chans[c].conn.value].served
      && f.req < |s.chans[c].out.issued|
    case SessionCallback(c, i) =>
      && Alive(s, c) && i in s.chans[c].out.resolved && i !in s.chans[c].fired
      && i < |s.chans[c].out.issued|
    case SessionBreaks(c) => Alive(s, c)
    case SessionGetsAdd(id, i) =>
      && Attached(s, id) && Alive(s, s.conns[id].chan)
      && i in s.conns[id].written && i < |s.conns[id].out.issued|
    case MasterAccepts(c) => c < |s.chans| && s.chans[c].conn.None?
    case ScanBegins(id, i) =>
      && s.reader.None? && Attached(s, id) && i in s.chans[s.conns[id].chan].written
      && i < |s.chans[s.conns[id].chan].out.issued|
      && s.chans[s.conns[id].chan].out.issued[i].GetMessages?
    case ScanFinds => s.reader.Some? && s.reader.value.scan.Pos() in s.storage.messages
    case ScanEnds =>
      && s.reader.Some? && s.reader.value.scan.Pos() !in s.storage.messages
      && s.reader.value.conn < |s.conns|
    case MasterGetsReady(id, i) =>
      && Attached(s, id) && i in s.chans[s.conns[id].chan].written
      && i < |s.chans[s.conns[id].chan].out.issued|
      && s.chans[s.conns[id].chan].out.issued[i].NodeReady?
    case RegistryDrops(id) => id in s.registry.entries
    case Reserves(_) => true
    case Inserts(m, _) => m in s.storage.reserved
    case RequestStarts(m) =>
      && m in s.requests && m in s.storage.messages
      && (!s.requests[m].started || s.requests[m].timer)
    case ConnWrites(id, i) => id < |s.conns| && i < |s.conns[id].out.issued|
    case ConnFails(id, i) => id < |s.conns| && i in s.conns[id].out.pending
    case ConnBreaks(id) => id < |s.conns|
    case ConnGetsReply(id, i, st) => id < |s.conns| && (i, st) in s.conns[id].replies
    case RequestCallback(id, i) =>
      && id < |s.conns| && i in s.conns[id].out.resolved && i !in s.conns[id].fired
      && i < |s.conns[id].out.issued|
      && s.conns[id].out.issued[i].id in s.requests && s.conns[id].out.issued[i].id in s.storage.messages
      && s.requests[s.conns[id].out.issued[i].id].pendingWrites > 0
  }

  // ---- helpers of the steps ----

  /** The payload is parsed by the context of the request it answers. */
  function Parse(call: SecondaryNode.Call, reply: Reply): Option<Reply> {
    if call.GetMessages? == reply.Texts? then Some(reply) else None
  }

  function NewSession(n: nat, call: SecondaryNode.Call): Session {
    Session(n, None, Issue(NoRequests(), call), {}, {}, None)
  }

  function NewConn(c: nat, log: Log): Conn {
    Conn(c, NoRequests(), {}, {}, {}, {}, log)
  }

  /** `call` goes out on every connection in `targets`. */
  function IssueAll(conns: seq<Conn>, targets: set<nat>, call: AddCall): (r: seq<Conn>)
    ensures |r| == |conns|
    ensures forall k {:trigger r[k]} :: 0 <= k < |conns| ==>
      r[k] == if k in targets then conns[k].(out := Issue(conns[k].out, call)) else conns[k]
  {
    seq(|conns|, k requires 0 <= k < |conns| =>
      if k in targets then conns[k].(out := Issue(conns[k].out, call)) else conns[k])
  }

  function ReplyOf(o: Outcome<AddStatus>): R.Reply {
    match o
    case Answer(OK) => R.OK
    case Answer(NOT_ALLOWED) => R.NOT_ALLOWED
    case Failed(_) => R.FAILED
  }

  /** The session after the callback of request `i`, and what happens to its node. */
  function AfterCallback(d: Session, n: SecondaryNode.Node, i: nat): (Session, SecondaryNode.Node)
    requires i < |d.out.issued| && i in d.out.resolved
  {
    var d' := d.(fired := d.fired + {i});
    match d.out.issued[i]
    case GetMessages(gap) =>
      if d.out.resolved[i].Answer? && d.out.resolved[i].value.Texts? then
        var (n', call) := SecondaryNode.OnMessages(n, gap, Some(d.out.resolved[i].value.texts));
        var a := Acceptance(i, d.out.resolved[i].value.texts, d.out.resolved[i].value.seen);
        (d'.(accepted := Some(a), out := Issue(d.out, call)), n')
      else
        var (n', call) := SecondaryNode.OnMessages(n, gap, None);
        (d'.(out := Issue(d.out, call)), n')
    case NodeReady =>
      match SecondaryNode.OnReadyAck(d.out.resolved[i].Answer?)
      case Some(call) => (d'.(out := Issue(d.out, call)), n)
      case None => (d', n)
  }

  /** A request's own transition together with the calls it makes. */
  function WithRequest(s: State, m: nat, r: R.Request, targets: set<nat>): State
    requires m in s.storage.messages
  {
    s.(requests := s.requests[m := r],
       conns := IssueAll(s.conns, targets, AddCall(m, s.storage.messages[m])))
  }

  // ---- the transition function ----

  function Apply(s: State, e: Step): State
    requires Enabled(s, e)
  {
    match e
    case NodeStarts => s.(nodes := s.nodes + [SecondaryNode.FRESH])
    case SessionRuns(n) =>
      var (n', call) := SecondaryNode.RunSession(s.nodes[n], |s.chans|);
      s.(chans := s.chans + [NewSession(n, call)], nodes := s.nodes[n := n'])
    case SessionWrites(c, i) =>
      s.(chans := s.chans[c := s.chans[c].(written := s.chans[c].written + {i})])
    case SessionFails(c, i) =>
      s.(chans := s.chans[c := s.chans[c].(out := Resolve(s.chans[c].out, i, Failed(TIMEOUT)))])
    case SessionDelivers(c, f) =>
      s.(chans := s.chans[c := s.chans[c].(out :=
        Resolve(s.chans[c].out, f.req, OutcomeOf(Parse(s.chans[c].out.issued[f.req], f.reply))))])
    case SessionCallback(c, i) =>
      var (d, n) := AfterCallback(s.chans[c], s.nodes[s.chans[c].node], i);
      s.(chans := s.chans[c := d], nodes := s.nodes[s.chans[c].node := n])
    case SessionBreaks(c) =>
      s.(chans := s.chans[c := s.chans[c].(out := ResolveAll(s.chans[c].out, PEER_DISCONNECTED))],
         nodes := s.nodes[s.chans[c].node := SecondaryNode.Disconnect(s.nodes[s.chans[c].node])])
    case SessionGetsAdd(id, i) =>
      var n := s.chans[s.conns[id].chan].node;
      var call := s.conns[id].out.issued[i];
      s.(nodes := s.nodes[n := SecondaryNode.OnAddMessage(s.nodes[n], call.id, call.text)],
         conns := s.conns[id := s.conns[id].(replies := s.conns[id].replies + {(i, OK)})])
    case MasterAccepts(c) =>
      s.(registry := MasterNode.Add(s.registry),
         chans := s.chans[c := s.chans[c].(conn := Some(|s.conns|))],
         conns := s.conns + [NewConn(c, s.storage.messages)])
    case ScanBegins(id, i) =>
      s.(reader := Some(Reader(id, i,
        MasterStorage.Scan(s.chans[s.conns[id].chan].out.issued[i].start, []))))
    case ScanFinds =>
      var r := s.reader.value;
      s.(reader := Some(r.(scan := MasterStorage.Advance(r.scan, s.storage.messages))))
    case ScanEnds =>
      var r := s.reader.value;
      s.(reader := None,
         conns := s.conns[r.conn := s.conns[r.conn].(
           served := s.conns[r.conn].served + {Frame(r.req, Texts(r.scan.texts, s.storage.messages))})])
    case MasterGetsReady(id, i) =>
      if id in s.registry.entries then
        s.(registry := MasterNode.Ready(s.registry, id),
           conns := s.conns[id := s.conns[id].(served := s.conns[id].served + {Frame(i, Ack)})])
      else s
    case RegistryDrops(id) => s.(registry := MasterNode.Drop(s.registry, id))
    case Reserves(text) => s.(storage := MasterStorage.Reserve(s.storage, text))
    case Inserts(m, wc) =>
      s.(storage := MasterStorage.Insert(s.storage, m),
         requests := s.requests[m := R.New(if wc <= 1 then 0 else wc - 1)])
    case RequestStarts(m) =>
      var (r, targets) := R.Start(s.requests[m], Some(s.registry.entries.Keys));
      WithRequest(s, m, r, targets)
    case ConnWrites(id, i) =>
      s.(conns := s.conns[id := s.conns[id].(written := s.conns[id].written + {i})])
    case ConnFails(id, i) =>
      s.(conns := s.conns[id := s.conns[id].(out := Resolve(s.conns[id].out, i, Failed(TIMEOUT)))])
    case ConnBreaks(id) =>
      s.(conns := s.conns[id := s.conns[id].(out := ResolveAll(s.conns[id].out, PEER_DISCONNECTED))])
    case ConnGetsReply(id, i, st) =>
      s.(conns := s.conns[id := s.conns[id].(out := Resolve(s.conns[id].out, i, Answer(st)))])
    case RequestCallback(id, i) =>
      var m := s.conns[id].out.issued[i].id;
      var (r, targets) :=
        R.OnReply(s.requests[m], id, ReplyOf(s.conns[id].out.resolved[i]), Some(s.registry.entries.Keys));
      WithRequest(s.(conns := s.conns[id := s.conns[id].(fired := s.conns[id].fired + {i})]), m, r, targets)
  }

  // ---- runs ----

  /** `ss` are the states of a run from the initial state, `es` the steps between them. */
  ghost predicate IsRun(ss: seq<State>, es: seq<Step>) {
    && |ss| == |es| + 1 && ss[0] == INIT
    && forall i {:trigger es[i]} :: 0 <= i < |es| ==> Enabled(ss[i], es[i]) && ss[i + 1] == Apply(ss[i], es[i])
  }

  /** The node at the far end of connection `id`. */
  ghost function NodeOf(s: State, id: nat): nat
    requires Attached(s, id)
  {
    s.chans[s.conns[id].chan].node
  }
}
