/**
 Both storages of the system are concurrent maps from message ids to texts that only ever
 grow.  This module defines what the loops over such a map compute: the first id that is
 missing and the gap-free chunk from a given id.
 */
module Logs {
  import opened Bytes

  type Message = Bytes
  type Log = map<nat, Message>

  /** The stored ids that are at least `i`: what a scan that has reached `i` may still meet. */
  ghost function IdsFrom(m: Log, i: nat): set<nat> {
    set k | k in m && i <= k
  }

  /** The least id that is at least `i` and absent from `m`. */
  function GapFrom(m: Log, i: nat): (g: nat)
    ensures i <= g && g !in m
    ensures forall k {:trigger k in m} :: i <= k < g ==> k in m
    decreases |IdsFrom(m, i)|
  {
    if i in m then
      StrictlyFewerAbove(m, i);
      GapFrom(m, i + 1)
    else i
  }

  function FirstGap(m: Log): (g: nat) {
    GapFrom(m, 0)
  }

  /** The texts stored without a gap from `i` on. */
  function Chunk(m: Log, i: nat): (c: seq<Message>)
    ensures |c| == GapFrom(m, i) - i
    ensures forall j :: 0 <= j < |c| ==> c[j] == m[i + j]
    decreases |IdsFrom(m, i)|
  {
    if i in m then
      StrictlyFewerAbove(m, i);
      [m[i]] + Chunk(m, i + 1)
    else []
  }

  lemma StrictlyFewerAbove(m: Log, i: nat)
    requires i in m
    ensures |IdsFrom(m, i + 1)| < |IdsFrom(m, i)|
  {
    assert IdsFrom(m, i) == IdsFrom(m, i + 1) + {i};
  }

  /** The gap is the only id with these two properties. */
  lemma {:induction false} GapIsUnique(m: Log, i: nat, g: nat)
    requires i <= g && g !in m
    requires forall k :: i <= k < g ==> k in m
    ensures GapFrom(m, i) == g
  {
    var h := GapFrom(m, i);
    assert h < g ==> h in m;
    assert g < h ==> g in m;
  }

  /** Every id below the gap is stored, and conversely an initial segment that is stored lies below it. */
  lemma {:induction false} BelowFirstGap(m: Log, g: nat)
    ensures (forall k {:trigger k in m} :: 0 <= k < g ==> k in m) <==> g <= FirstGap(m)
  {
    var h := FirstGap(m);
    assert h !in m;
  }

  /** `a` is contained in `b`: same keys or more, the same text at each key of `a`. */
  ghost predicate SubLog(a: Log, b: Log) {
    && a.Keys <= b.Keys
    && forall k {:trigger a[k]} {:trigger b[k]} :: k in a ==> a[k] == b[k]
  }

  lemma {:induction false} SubLogTransitive(a: Log, b: Log, c: Log)
    requires SubLog(a, b) && SubLog(b, c)
    ensures SubLog(a, c)
  {
    forall k | k in a ensures k in c && a[k] == c[k] {
      assert k in b && a[k] == b[k];
    }
  }

  /** A log contained in another one has a gap no later, and its visible part is a prefix. */
  lemma {:induction false} SubLogPrefix(a: Log, b: Log)
    requires SubLog(a, b)
    ensures FirstGap(a) <= FirstGap(b)
    ensures Chunk(a, 0) <= Chunk(b, 0)
  {
    assert FirstGap(b) !in a;
    var ca, cb := Chunk(a, 0), Chunk(b, 0);
    forall j | 0 <= j < |ca| ensures ca[j] == cb[j] {
      assert j in a && a[j] == b[j];
      assert ca[j] == a[0 + j] && cb[j] == b[0 + j];
    }
  }

  /** No stored id has a missing id below it. */
  ghost predicate GapFree(m: Log) {
    forall k, j {:trigger k in m, j in m} :: k in m && 0 <= j < k ==> j in m
  }

  /** `texts` is what `m` stores under the ids from `start` on. */
  ghost predicate Slice(start: nat, texts: seq<Message>, m: Log) {
    forall k {:trigger k in m} {:trigger m[k]} ::
      start <= k < start + |texts| ==> k in m && m[k] == texts[k - start]
  }

  lemma {:induction false} SliceGrows(start: nat, texts: seq<Message>, m: Log, m': Log)
    requires Slice(start, texts, m) && SubLog(m, m')
    ensures Slice(start, texts, m')
  {
    forall k | start <= k < start + |texts| ensures k in m' && m'[k] == texts[k - start] {
      assert k in m && m[k] == texts[k - start];
    }
  }
}
