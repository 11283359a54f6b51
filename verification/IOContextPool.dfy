/** The allocator that spreads work over the io_contexts. */
module IOContextPool {
  import opened Bytes

  function Sum(load: seq<nat>): (total: nat)
    decreases |load|
  {
    if load == [] then 0 else load[0] + Sum(load[1..])
  }

  lemma {:induction false} SumOfEqualShares(load: seq<nat>, m: nat)
    requires forall k :: 0 <= k < |load| ==> m <= load[k]
    ensures m * |load| <= Sum(load)
    decreases |load|
  {
    if load != [] {
      SumOfEqualShares(load[1..], m);
      assert m * |load| == m + m * |load[1..]|;
    }
  }

  lemma {:induction false} SumBounds(load: seq<nat>, i: nat)
    requires i < |load|
    ensures load[i] <= Sum(load)
    decreases |load|
  {
    if i > 0 {
      SumBounds(load[1..], i - 1);
    }
  }

  lemma {:induction false} SumAfter(load: seq<nat>, i: nat, n: nat)
    requires i < |load|
    ensures Sum(load[i := n]) == Sum(load) - load[i] + n
    decreases |load|
  {
    if i == 0 {
      assert load[i := n][1..] == load[1..];
    } else {
      SumAfter(load[1..], i - 1, n);
      assert load[i := n][1..] == load[1..][i - 1 := n];
    }
  }

  /** `guards` are the guards alive, by the context each was given. */
  class Pool {
    const size: nat
    var load: seq<nat>
    ghost var guards: multiset<nat>

    /** The counters are the guards: neither leaks. */
    ghost predicate Valid()
      reads this
    {
      && size > 0 && |load| == size
      && (forall i {:trigger load[i]} :: 0 <= i < size ==> load[i] == guards[i])
      && (forall i {:trigger guards[i]} :: i >= size ==> guards[i] == 0)
      && |guards| == Sum(load)
    }

    constructor (size: nat)
      ensures Valid() && guards == multiset{} && this.size == if size == 0 then 1 else size
    {
      var n := if size > 1 then size else 1;
      this.size := n;
      load := seq(n, _ => 0);
      guards := multiset{};
      new;
      NothingLoaded(load);
    }

    /** Gives out a least loaded context, which then carries at most one more than its share. */
    method GetLeastLoaded() returns (i: nat)
      requires Valid() && |guards| < SIZE_LIMIT - 1
      modifies this
      ensures Valid() && i < size && guards == old(guards) + multiset{i}
      ensures forall k :: 0 <= k < size ==> old(load)[i] <= old(load)[k]
      ensures forall k :: 0 <= k < i ==> old(load)[i] < old(load)[k]
      ensures load == old(load)[i := old(load)[i] + 1]
      ensures (load[i] - 1) * size <= |old(guards)|
    {
      var smallestLoad := SIZE_LIMIT - 1;
      i := 0;
      for k := 0 to size
        invariant Valid() && load == old(load) && guards == old(guards)
        invariant i < size && (k > 0 ==> smallestLoad == load[i])
        invariant k == 0 ==> smallestLoad == SIZE_LIMIT - 1
        invariant forall j :: 0 <= j < k ==> smallestLoad <= load[j]
        invariant i <= k && forall j :: 0 <= j < i ==> smallestLoad < load[j]
      {
        SumBounds(load, k);
        if smallestLoad <= load[k] {
          continue;
        }
        smallestLoad, i := load[k], k;
      }
      SumOfEqualShares(load, smallestLoad);
      SumAfter(load, i, load[i] + 1);
      load := load[i := load[i] + 1];
      guards := guards + multiset{i};
    }

    /** The destructor of a guard given for `context`. */
    method DecLoad(context: nat)
      requires Valid() && context in guards
      modifies this
      ensures Valid() && guards == old(guards) - multiset{context}
      ensures old(load)[context] > 0 && load == old(load)[context := old(load)[context] - 1]
    {
      ghost var before := load;
      assert context < size && before[context] == guards[context];
      for i := 0 to size
        invariant guards == old(guards) && |load| == size
        invariant load == if i > context then before[context := before[context] - 1] else before
      {
        if i != context {
          continue;
        }
        if load[i] > 0 {
          load := load[i := load[i] - 1];
        }
      }
      SumAfter(before, context, before[context] - 1);
      guards := guards - multiset{context};
    }
  }

  lemma {:induction false} NothingLoaded(load: seq<nat>)
    requires forall k :: 0 <= k < |load| ==> load[k] == 0
    ensures Sum(load) == 0
    decreases |load|
  {
    if load != [] {
      NothingLoaded(load[1..]);
    }
  }
}
