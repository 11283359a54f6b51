/**
 The storage of a secondary: an insert that keeps the first text written under an id,
 a batch insert, the first gap and the contiguous chunk.
 */
module SecondaryStorage {
  import opened Logs

  function Insert(m: Log, id: nat, text: Message): Log {
    if id in m then m else m[id := text]
  }

  function InsertAll(m: Log, start: nat, texts: seq<Message>): Log
    decreases |texts|
  {
    if texts == [] then m else InsertAll(Insert(m, start, texts[0]), start + 1, texts[1..])
  }

  /** The loops' own direction: one more text at the end. */
  lemma {:induction false} InsertAllSnoc(m: Log, start: nat, texts: seq<Message>, text: Message)
    ensures InsertAll(m, start, texts + [text]) == Insert(InsertAll(m, start, texts), start + |texts|, text)
    decreases |texts|
  {
    if texts == [] {
      assert (texts + [text])[1..] == [];
    } else {
      assert (texts + [text])[1..] == texts[1..] + [text];
      InsertAllSnoc(Insert(m, start, texts[0]), start + 1, texts[1..], text);
    }
  }

  /** What a batch leaves behind: old texts win, the batch fills the rest of its range, nothing else changes. */
  lemma {:induction false} InsertAllContents(m: Log, start: nat, texts: seq<Message>)
    ensures forall k {:trigger k in InsertAll(m, start, texts)} ::
              k in InsertAll(m, start, texts) <==> k in m || start <= k < start + |texts|
    ensures forall k {:trigger InsertAll(m, start, texts)[k]} :: k in InsertAll(m, start, texts) ==>
              InsertAll(m, start, texts)[k] == if k in m then m[k] else texts[k - start]
    decreases |texts|
  {
    if texts != [] {
      InsertAllContents(Insert(m, start, texts[0]), start + 1, texts[1..]);
    }
  }

  /** No insert ever changes or loses a stored text. */
  lemma {:induction false} InsertAllKeeps(m: Log, start: nat, texts: seq<Message>)
    ensures SubLog(m, InsertAll(m, start, texts))
  {
    InsertAllContents(m, start, texts);
    forall k | k in m ensures k in InsertAll(m, start, texts) && InsertAll(m, start, texts)[k] == m[k] {
      assert k in InsertAll(m, start, texts);
    }
  }

  /** A batch that starts at or below the first gap lengthens the visible prefix to cover it. */
  lemma {:induction false} BatchExtendsPrefix(m: Log, start: nat, texts: seq<Message>)
    requires start <= FirstGap(m)
    ensures FirstGap(InsertAll(m, start, texts)) >= FirstGap(m)
    ensures FirstGap(InsertAll(m, start, texts)) >= start + |texts|
  {
    var m' := InsertAll(m, start, texts);
    InsertAllContents(m, start, texts);
    var g := FirstGap(m');
    assert g !in m';
    assert g !in m && !(start <= g < start + |texts|);
    assert g < FirstGap(m) ==> g in m;
  }

  // ---- order independence ----

  datatype Write = One(id: nat, text: Message) | Batch(start: nat, texts: seq<Message>)

  function Perform(m: Log, w: Write): Log {
    match w
    case One(id, text) => Insert(m, id, text)
    case Batch(start, texts) => InsertAll(m, start, texts)
  }

  function PerformAll(m: Log, ws: seq<Write>): Log
    decreases |ws|
  {
    if ws == [] then m else PerformAll(Perform(m, ws[0]), ws[1..])
  }

  /** The ids a write covers. */
  ghost predicate Covers(w: Write, k: nat) {
    match w
    case One(id, _) => k == id
    case Batch(start, texts) => start <= k < start + |texts|
  }

  /** Every text of `w` is the one that `log` holds under the same id. */
  ghost predicate DrawnFrom(w: Write, log: Log) {
    match w
    case One(id, text) => id in log && log[id] == text
    case Batch(start, texts) =>
      forall j :: 0 <= j < |texts| ==> start + j in log && log[start + j] == texts[j]
  }

  lemma {:induction false} PerformAllContents(m: Log, ws: seq<Write>, log: Log)
    requires SubLog(m, log)
    requires forall w :: w in ws ==> DrawnFrom(w, log)
    ensures SubLog(PerformAll(m, ws), log)
    ensures forall k: nat {:trigger k in PerformAll(m, ws)} ::
              k in PerformAll(m, ws) <==> k in m || exists w :: w in ws && Covers(w, k)
    decreases |ws|
  {
    if ws != [] {
      var w, m' := ws[0], Perform(m, ws[0]);
      assert DrawnFrom(w, log);
      if w.Batch? {
        InsertAllContents(m, w.start, w.texts);
        forall k | k in m' ensures k in log && m'[k] == log[k] {
          if k !in m {
            assert w.start + (k - w.start) in log;
          }
        }
      }
      assert forall k: nat :: k in m' <==> k in m || Covers(w, k);
      PerformAllContents(m', ws[1..], log);
      forall k: nat
        ensures k in PerformAll(m, ws) <==> k in m || exists w :: w in ws && Covers(w, k)
      {
        if v :| v in ws && Covers(v, k) {
          assert v == w || v in ws[1..];
        }
        if v :| v in ws[1..] && Covers(v, k) {
          assert v in ws;
        }
      }
    }
  }

  /**
   Any two interleavings of writes drawn from one log, with any repetitions, leave the same
   storage behind as soon as they mention the same writes.
   */
  lemma {:induction false} OrderIndependence(ws: seq<Write>, vs: seq<Write>, log: Log)
    requires forall w :: w in ws ==> DrawnFrom(w, log)
    requires forall w :: w in ws <==> w in vs
    ensures PerformAll(map[], ws) == PerformAll(map[], vs)
  {
    PerformAllContents(map[], ws, log);
    PerformAllContents(map[], vs, log);
    var a, b := PerformAll(map[], ws), PerformAll(map[], vs);
    forall k | k in a || k in b ensures k in a && k in b && a[k] == b[k] {
      assert exists w :: w in ws && Covers(w, k);
      assert exists w :: w in vs && Covers(w, k);
      assert k in a && k in b;
    }
    assert a.Keys == b.Keys;
  }

  // ---- the class ----

  /** `messages_` is the only state; the loops end because a map is finite. */
  class Storage {
    var messages: Log

    constructor ()
      ensures messages == map[]
    {
      messages := map[];
    }

    method AddMessage(id: nat, text: Message)
      modifies this
      ensures messages == Insert(old(messages), id, text)
      ensures messages == if id in old(messages) then old(messages) else old(messages)[id := text]
    {
      if id !in messages {
        messages := messages[id := text];
      }
    }

    method AddMessages(startId: nat, texts: seq<Message>)
      modifies this
      ensures messages == InsertAll(old(messages), startId, texts)
    {
      var i := 0;
      while i < |texts|
        invariant 0 <= i <= |texts|
        invariant messages == InsertAll(old(messages), startId, texts[..i])
      {
        InsertAllSnoc(old(messages), startId, texts[..i], texts[i]);
        assert texts[..i + 1] == texts[..i] + [texts[i]];
        AddMessage(startId + i, texts[i]);
        i := i + 1;
      }
      assert texts[..i] == texts;
    }

    method GetFirstGap() returns (res: nat)
      ensures res == FirstGap(messages)
    {
      res := 0;
      while res in messages
        invariant FirstGap(messages) == GapFrom(messages, res)
        decreases |IdsFrom(messages, res)|
      {
        StrictlyFewerAbove(messages, res);
        res := res + 1;
      }
    }

    method GetContiguousChunk(startId: nat) returns (res: seq<Message>)
      ensures res == Chunk(messages, startId)
    {
      res := [];
      var id := startId;
      while id in messages
        invariant startId <= id
        invariant Chunk(messages, startId) == res + Chunk(messages, id)
        decreases |IdsFrom(messages, id)|
      {
        StrictlyFewerAbove(messages, id);
        res := res + [messages[id]];
        id := id + 1;
      }
    }
  }
}
