/**
 The storage of the master.  Adding a message is two atomic steps, taking the next id and
 inserting under it, and other threads may run between them.  Reading a chunk is one
 lookup after another, with any number of those steps in between.
 */
module MasterStorage {
  import opened Logs

  /** `reserved` holds the texts whose id is taken but which are not inserted yet. */
  datatype Store = Store(next: nat, messages: Log, reserved: Log)

  const EMPTY := Store(0, map[], map[])

  /** Each id below the counter is either inserted or reserved, and no other id is. */
  ghost predicate Valid(s: Store) {
    && s.messages.Keys !! s.reserved.Keys
    && forall k: nat {:trigger k in s.messages} {:trigger k in s.reserved} ::
         k < s.next <==> k in s.messages || k in s.reserved
  }

  function Reserve(s: Store, text: Message): Store {
    s.(next := s.next + 1, reserved := s.reserved[s.next := text])
  }

  function Insert(s: Store, id: nat): Store
    requires id in s.reserved
  {
    s.(messages := s.messages[id := s.reserved[id]], reserved := s.reserved - {id})
  }

  /** A call of `getContiguousChunk` in progress: where it started and what it has collected. */
  datatype Scan = Scan(start: nat, texts: seq<Message>) {
    function Pos(): nat { start + |texts| }
  }

  function Advance(scan: Scan, m: Log): Scan
    requires scan.Pos() in m
  {
    scan.(texts := scan.texts + [m[scan.Pos()]])
  }

  /** Everything collected so far is stored under its id. */
  ghost predicate ScanMatches(scan: Scan, m: Log) {
    Slice(scan.start, scan.texts, m)
  }

  /** When the lookup fails, the scan has collected exactly the chunk of that moment. */
  lemma {:induction false} FinishedScan(scan: Scan, m: Log)
    requires ScanMatches(scan, m) && scan.Pos() !in m
    ensures scan.texts == Chunk(m, scan.start)
    ensures scan.Pos() == GapFrom(m, scan.start)
  {
    GapIsUnique(m, scan.start, scan.Pos());
  }

  /** A scan that began when `seen` was stored cannot stop inside what was gap-free then. */
  lemma {:induction false} FinishedScanReaches(scan: Scan, seen: Log, m: Log)
    requires ScanMatches(scan, m) && scan.Pos() !in m && SubLog(seen, m)
    ensures GapFrom(seen, scan.start) <= scan.Pos()
    ensures FirstGap(seen) <= scan.Pos()
  {
    assert scan.Pos() !in seen;
  }

  lemma {:induction false} GapFromFirst(log: Log, i: nat)
    requires i <= FirstGap(log)
    ensures GapFrom(log, i) == FirstGap(log)
  {
    GapIsUnique(log, i, FirstGap(log));
  }

  /** The gap-free log reaches beyond a stored message exactly when no id below it is reserved. */
  lemma {:induction false} ReachesIff(s: Store, m: nat)
    requires Valid(s) && m in s.messages
    ensures m < FirstGap(s.messages) <==> forall k {:trigger k in s.reserved} :: k in s.reserved ==> m <= k
  {
    var g := FirstGap(s.messages);
    assert g !in s.messages;
    if m < g {
      forall k | k in s.reserved ensures m <= k {
        assert k !in s.messages;
      }
    }
    if forall k {:trigger k in s.reserved} :: k in s.reserved ==> m <= k {
      assert g in s.messages || g in s.reserved || g >= s.next;
      assert m < s.next;
    }
  }

  /** So does a finished scan that started within the gap-free log. */
  lemma {:induction false} ScanReachesIff(s: Store, scan: Scan, m: nat)
    requires Valid(s) && ScanMatches(scan, s.messages) && scan.Pos() !in s.messages
    requires scan.start <= FirstGap(s.messages) && m in s.messages
    ensures m < scan.Pos() <==> forall k {:trigger k in s.reserved} :: k in s.reserved ==> m <= k
  {
    hide Valid, FirstGap;
    FinishedScan(scan, s.messages);
    GapFromFirst(s.messages, scan.start);
    ReachesIff(s, m);
  }

  // ---- interleavings of writers and one reader ----

  datatype Event = Reserving(text: Message) | Inserting(id: nat) | Finding

  datatype Config = Config(store: Store, scan: Scan)

  ghost predicate Enabled(c: Config, e: Event) {
    match e
    case Reserving(_) => true
    case Inserting(id) => id in c.store.reserved
    case Finding => c.scan.Pos() in c.store.messages
  }

  function Step(c: Config, e: Event): Config
    requires Enabled(c, e)
  {
    match e
    case Reserving(text) => c.(store := Reserve(c.store, text))
    case Inserting(id) => c.(store := Insert(c.store, id))
    case Finding => c.(scan := Advance(c.scan, c.store.messages))
  }

  ghost predicate Run(c: Config, es: seq<Event>, d: Config)
    decreases |es|
  {
    if es == [] then c == d else Enabled(c, es[0]) && Run(Step(c, es[0]), es[1..], d)
  }

  lemma {:induction false} InsertGrows(s: Store, id: nat)
    requires Valid(s) && id in s.reserved
    ensures Valid(Insert(s, id)) && SubLog(s.messages, Insert(s, id).messages)
  {
    assert id !in s.messages;
  }

  lemma {:induction false} RunKeeps(c: Config, es: seq<Event>, d: Config)
    requires Run(c, es, d) && Valid(c.store) && ScanMatches(c.scan, c.store.messages)
    ensures Valid(d.store) && SubLog(c.store.messages, d.store.messages)
    ensures ScanMatches(d.scan, d.store.messages) && d.scan.start == c.scan.start
    decreases |es|
  {
    if es != [] {
      var c' := Step(c, es[0]);
      if es[0].Inserting? {
        InsertGrows(c.store, es[0].id);
        SliceGrows(c.scan.start, c.scan.texts, c.store.messages, c'.store.messages);
      }
      RunKeeps(c', es[1..], d);
      SubLogTransitive(c.store.messages, c'.store.messages, d.store.messages);
    }
  }

  /**
   The concurrent read: whatever the writers do meanwhile, a finished call returns the chunk
   of the log as it stands at the last lookup.  Its end lies between the gap at the start of
   the call and the gap at its end, and if nothing was reserved at the start it covers every
   message that existed then.
   */
  lemma {:induction false} ConcurrentChunkRead(s: Store, start: nat, es: seq<Event>, d: Config)
    requires Valid(s) && Run(Config(s, Scan(start, [])), es, d)
    requires d.scan.Pos() !in d.store.messages
    ensures d.scan.texts == Chunk(d.store.messages, start)
    ensures GapFrom(s.messages, start) <= start + |d.scan.texts| == GapFrom(d.store.messages, start)
    ensures s.reserved == map[] ==> s.next <= start + |d.scan.texts|
  {
    var c := Config(s, Scan(start, []));
    RunKeeps(c, es, d);
    FinishedScan(d.scan, d.store.messages);
    FinishedScanReaches(d.scan, s.messages, d.store.messages);
    assert d.scan.Pos() !in s.messages;
  }

  /**
   A chunk covers every inserted message from its start on exactly when no id is missing
   below an inserted one at that moment.
   */
  lemma {:induction false} ChunkIsCompleteIff(m: Log, start: nat)
    requires start <= FirstGap(m)
    ensures (forall k {:trigger k in m} :: k in m && start <= k ==> k < start + |Chunk(m, start)|) <==> GapFree(m)
  {
    var g := GapFrom(m, start);
    assert FirstGap(m) !in m && g !in m;
    assert g == FirstGap(m);
    if forall k {:trigger k in m} :: k in m && start <= k ==> k < g {
      forall k, j: nat | k in m && j < k ensures j in m {
        assert k < g;
      }
    }
    if GapFree(m) {
      forall k | k in m && start <= k ensures k < g {
        assert g !in m;
      }
    }
  }

  // ---- the class ----

  class Storage {
    var nextMessageId: nat
    var messages: Log
    ghost var reserved: Log

    ghost function Abs(): Store
      reads this
    {
      Store(nextMessageId, messages, reserved)
    }

    constructor ()
      ensures Abs() == EMPTY
    {
      nextMessageId, messages, reserved := 0, map[], map[];
    }

    method FetchAdd(ghost text: Message) returns (id: nat)
      requires Valid(Abs())
      modifies this
      ensures Abs() == Reserve(old(Abs()), text) && Valid(Abs())
      ensures id == old(nextMessageId) && id !in old(messages) && id !in old(reserved)
      ensures nextMessageId == id + 1 && messages == old(messages) && reserved == old(reserved)[id := text]
    {
      id := nextMessageId;
      nextMessageId := id + 1;
      reserved := reserved[id := text];
    }

    method InsertReserved(id: nat, text: Message)
      requires Valid(Abs()) && id in reserved && reserved[id] == text
      modifies this
      ensures Abs() == Insert(old(Abs()), id) && Valid(Abs())
      ensures nextMessageId == old(nextMessageId)
      ensures messages == old(messages)[id := text] && reserved == old(reserved) - {id}
    {
      messages := messages[id := text];
      reserved := reserved - {id};
    }

    /** The two steps with nothing between them. */
    method AddMessage(text: Message) returns (id: nat, stored: Message)
      requires Valid(Abs())
      modifies this
      ensures Valid(Abs()) && id == old(nextMessageId) && stored == text
      ensures nextMessageId == old(nextMessageId) + 1 && id !in old(messages)
      ensures messages == old(messages)[id := text] && reserved == old(reserved)
    {
      id := FetchAdd(text);
      InsertReserved(id, text);
      stored := messages[id];
      assert id !in old(reserved);
      assert reserved == old(reserved);
    }

    method GetContiguousChunk(startId: nat) returns (res: seq<Message>)
      ensures res == Chunk(messages, startId)
    {
      res := [];
      var id := startId;
      while id in messages
        invariant startId <= id
        invariant Chunk(messages, startId) == res + Chunk(messages, id)
        decreases |IdsFrom(messages, id)|
      {
        StrictlyFewerAbove(messages, id);
        res := res + [messages[id]];
        id := id + 1;
      }
    }
  }
}
