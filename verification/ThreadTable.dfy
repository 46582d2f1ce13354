/**
 The open-addressed thread table of memory_replay/Threads.cpp. An entry whose tid is 0 is free.
 */
module ThreadTable {
  import opened Options

  function InUse(tids: seq<nat>): (n: nat)
    ensures n <= |tids|
  {
    if |tids| == 0 then 0 else InUse(tids[..|tids| - 1]) + if tids[|tids| - 1] != 0 then 1 else 0
  }

  lemma {:induction false} InUseAppend(a: seq<nat>, b: seq<nat>)
    ensures InUse(a + b) == InUse(a) + InUse(b)
  {
    if |b| == 0 {
      assert a + b == a;
    } else {
      InUseAppend(a, b[..|b| - 1]);
      assert (a + b)[..|a + b| - 1] == a + b[..|b| - 1];
    }
  }

  lemma InUseUpdate(tids: seq<nat>, i: nat, tid: nat)
    requires i < |tids|
    ensures InUse(tids[i := tid]) + (if tids[i] != 0 then 1 else 0) == InUse(tids) + if tid != 0 then 1 else 0
  {
    var a, b := tids[..i], tids[i + 1..];
    assert tids == a + [tids[i]] + b && tids[i := tid] == a + [tid] + b;
    InUseAppend(a, [tids[i]]);
    InUseAppend(a + [tids[i]], b);
    InUseAppend(a, [tid]);
    InUseAppend(a + [tid], b);
  }

  lemma {:induction false} NoneInUse(tids: seq<nat>)
    requires InUse(tids) == 0
    ensures forall i :: 0 <= i < |tids| ==> tids[i] == 0
  {
    if |tids| > 0 {
      NoneInUse(tids[..|tids| - 1]);
    }
  }

  lemma {:induction false} AllInUse(tids: seq<nat>)
    requires forall i :: 0 <= i < |tids| ==> tids[i] != 0
    ensures InUse(tids) == |tids|
  {
    if |tids| > 0 {
      AllInUse(tids[..|tids| - 1]);
    }
  }

  // The entry k places after h, wrapping at the end.
  function Slot(h: nat, k: nat, m: nat): (i: nat)
    requires h < m && k < m
    ensures i < m
  {
    if h + k < m then h + k else h + k - m
  }

  // The entries in use among the k from h on.
  function Met(tids: seq<nat>, h: nat, k: nat): nat
    requires h < |tids| && k <= |tids|
  {
    if k == 0 then 0 else Met(tids, h, k - 1) + if tids[Slot(h, k - 1, |tids|)] != 0 then 1 else 0
  }

  lemma {:induction false} MetSlices(tids: seq<nat>, h: nat, k: nat)
    requires h < |tids| && k <= |tids|
    ensures Met(tids, h, k) ==
            if h + k <= |tids| then InUse(tids[h..h + k]) else InUse(tids[h..]) + InUse(tids[..h + k - |tids|])
  {
    hide InUse;
    if k > 0 {
      MetSlices(tids, h, k - 1);
      if h + k <= |tids| {
        InUseNext(tids[h..h + k]);
        assert tids[h..h + k][..k - 1] == tids[h..h + k - 1];
      } else {
        var e := h + k - |tids|;
        InUseNext(tids[..e]);
        assert tids[..e][..e - 1] == tids[..e - 1];
        InUseNone(tids[..0]);
        assert e == 1 ==> tids[h..h + k - 1] == tids[h..];
      }
    } else {
      InUseNone(tids[h..h]);
    }
  }

  lemma InUseNext(tids: seq<nat>)
    requires |tids| > 0
    ensures InUse(tids) == InUse(tids[..|tids| - 1]) + if tids[|tids| - 1] != 0 then 1 else 0
  {
  }

  lemma InUseNone(tids: seq<nat>)
    requires tids == []
    ensures InUse(tids) == 0
  {
  }

  // Once around meets every entry once.
  lemma MetAll(tids: seq<nat>, h: nat)
    requires h < |tids|
    ensures Met(tids, h, |tids|) == InUse(tids)
  {
    hide Met, InUse;
    MetSlices(tids, h, |tids|);
    if h == 0 {
      assert tids[0..0 + |tids|] == tids;
    } else {
      InUseAppend(tids[..h], tids[h..]);
      assert tids == tids[..h] + tids[h..];
    }
  }

  lemma {:induction false} MetMonotone(tids: seq<nat>, h: nat, k: nat, l: nat)
    requires h < |tids| && k <= l <= |tids|
    ensures Met(tids, h, k) <= Met(tids, h, l)
    ensures Met(tids, h, k) == Met(tids, h, l) ==> forall j :: k <= j < l ==> tids[Slot(h, j, |tids|)] == 0
    decreases l
  {
    if k < l {
      MetMonotone(tids, h, k, l - 1);
    }
  }

  // The place at which the probe from h comes to entry i.
  function Place(h: nat, i: nat, m: nat): (j: nat)
    requires h < m && i < m
    ensures j < m && Slot(h, j, m) == i
  {
    if i >= h then i - h else i - h + m
  }

  predicate Distinct(tids: seq<nat>) {
    forall i, j :: 0 <= i < j < |tids| && tids[i] != 0 ==> tids[i] != tids[j]
  }

  class Threads {
    const tids: array<nat>
    var numThreads: nat

    ghost predicate Valid()
      reads this, tids
    {
      tids.Length > 0 && numThreads == InUse(tids[..]) && Distinct(tids[..])
    }

    constructor (maxThreads: nat)
      requires maxThreads > 0
      ensures Valid() && fresh(tids) && tids.Length == maxThreads && numThreads == 0
      ensures forall i :: 0 <= i < maxThreads ==> tids[i] == 0
    {
      tids := new nat[maxThreads](_ => 0);
      numThreads := 0;
      new;
      ghost var zero := tids[..];
      NothingInUse(zero);
    }

    // Probes from the hash of the tid until it has met as many threads as there are.
    method FindThread(tid: nat) returns (r: Option<nat>)
      requires Valid() && tid > 0
      ensures r.Some? ==> r.value < tids.Length && tids[r.value] == tid
      ensures r.None? ==> tid !in tids[..]
    {
      hide InUse, Distinct;
      var index := tid % tids.Length;
      var entries := numThreads;
      ghost var h, k := index, 0;
      ghost var all := tids[..];
      MetAll(all, h);
      while entries != 0
        invariant 0 <= k <= |all| == tids.Length && h < |all| && all == tids[..]
        invariant index == if k < |all| then Slot(h, k, |all|) else h
        invariant entries + Met(all, h, k) == numThreads == Met(all, h, |all|)
        invariant forall j :: 0 <= j < k ==> all[Slot(h, j, |all|)] != tid
        decreases |all| - k
      {
        var cur := tids[index];
        if cur == tid {
          return Some(index);
        }
        MetMonotone(all, h, k + 1, |all|);
        if cur != 0 {
          entries := entries - 1;
        }
        index := index + 1;
        if index == tids.Length {
          index := 0;
        }
        k := k + 1;
      }
      MetMonotone(all, h, k, |all|);
      forall i | 0 <= i < |all| ensures all[i] != tid {
        var j := Place(h, i, |all|);
      }
      return None;
    }

    method FindEmptyEntry(tid: nat) returns (r: Option<nat>)
      requires Valid() && tid > 0
      ensures r.Some? ==> r.value < tids.Length && tids[r.value] == 0
      ensures r.None? <==> numThreads == tids.Length
    {
      var index := tid % tids.Length;
      ghost var h := index;
      var entries := 0;
      while entries < tids.Length
        invariant 0 <= entries <= tids.Length && h < tids.Length
        invariant index == if entries < tids.Length then Slot(h, entries, tids.Length) else h
        invariant forall j :: 0 <= j < entries ==> tids[Slot(h, j, tids.Length)] != 0
      {
        if tids[index] == 0 {
          NotAllInUse(tids[..], index);
          return Some(index);
        }
        index := index + 1;
        if index == tids.Length {
          index := 0;
        }
        entries := entries + 1;
      }
      forall i | 0 <= i < tids.Length ensures tids[..][i] != 0 {
        var j := Place(h, i, tids.Length);
      }
      AllInUse(tids[..]);
      return None;
    }

    // Fails only when every entry is in use.
    method CreateThread(tid: nat) returns (r: Option<nat>)
      requires Valid() && tid > 0 && tid !in tids[..]
      modifies this, tids
      ensures Valid()
      ensures r.None? <==> old(numThreads) == tids.Length
      ensures r.None? ==> tids[..] == old(tids[..]) && numThreads == old(numThreads)
      ensures r.Some? ==> r.value < tids.Length && old(tids[..])[r.value] == 0
      ensures r.Some? ==> tids[..] == old(tids[..])[r.value := tid] && numThreads == old(numThreads) + 1
    {
      if numThreads == tids.Length {
        return None;
      }
      r := FindEmptyEntry(tid);
      InUseUpdate(tids[..], r.value, tid);
      tids[r.value] := tid;
      numThreads := numThreads + 1;
      assert tids[..] == old(tids[..])[r.value := tid];
    }

    method Finish(i: nat)
      requires Valid() && i < tids.Length && tids[i] != 0
      modifies this, tids
      ensures Valid() && tids[..] == old(tids[..])[i := 0] && numThreads == old(numThreads) - 1
    {
      InUseUpdate(tids[..], i, 0);
      tids[i] := 0;
      numThreads := numThreads - 1;
      assert tids[..] == old(tids[..])[i := 0];
    }

    // Waits for each thread in turn; `waited` are the entries it waited for.
    method WaitForAllToQuiesce() returns (waited: seq<nat>)
      requires Valid()
      ensures Waited(waited, tids[..], tids.Length)
    {
      hide InUse, Waited, Distinct;
      var i, threads := 0, 0;
      waited := [];
      ghost var all := tids[..];
      WaitedNone(all);
      while threads < numThreads
        invariant 0 <= i <= tids.Length && threads == InUse(all[..i]) && Waited(waited, all, i)
        decreases tids.Length - i
      {
        MoreInUse(all, i);
        WaitedNext(waited, all, i);
        if tids[i] != 0 {
          threads := threads + 1;
          waited := waited + [i];
        }
        i := i + 1;
      }
      WaitedAll(waited, all, i);
    }
  }

  // The entries in use among the first i, in order.
  ghost predicate Waited(waited: seq<nat>, tids: seq<nat>, i: nat) {
    && i <= |tids|
    && (forall x: nat :: x in waited <==> x < i && tids[x] != 0)
    && forall j, k :: 0 <= j < k < |waited| ==> waited[j] < waited[k]
  }

  lemma WaitedNone(tids: seq<nat>)
    ensures Waited([], tids, 0) && InUse(tids[..0]) == 0
  {
  }

  lemma WaitedNext(waited: seq<nat>, tids: seq<nat>, i: nat)
    requires Waited(waited, tids, i) && i < |tids|
    ensures Waited(if tids[i] != 0 then waited + [i] else waited, tids, i + 1)
  {
    if tids[i] != 0 {
      var more := waited + [i];
      assert more[|waited|] == i;
      forall x: nat ensures x in more <==> x < i + 1 && tids[x] != 0 {
        assert x in more <==> x in waited || x == i;
      }
      forall j, k | 0 <= j < k < |more| ensures more[j] < more[k] {
        assert more[j] in waited;
      }
    }
  }

  // While not all entries in use are met, there are entries left.
  lemma MoreInUse(tids: seq<nat>, i: nat)
    requires i <= |tids| && InUse(tids[..i]) < InUse(tids)
    ensures i < |tids| && InUse(tids[..i + 1]) == InUse(tids[..i]) + if tids[i] != 0 then 1 else 0
  {
    hide *;
    assert tids[..|tids|] == tids;
    if i < |tids| {
      assert tids[..i + 1][..i] == tids[..i];
      InUseNext(tids[..i + 1]);
    }
  }

  lemma WaitedAll(waited: seq<nat>, tids: seq<nat>, i: nat)
    requires Waited(waited, tids, i) && InUse(tids[..i]) >= InUse(tids)
    ensures Waited(waited, tids, |tids|)
  {
    assert tids == tids[..i] + tids[i..];
    InUseAppend(tids[..i], tids[i..]);
    NoneInUse(tids[i..]);
    forall x | i <= x < |tids| ensures tids[x] == 0 {
      assert tids[x] == tids[i..][x - i];
    }
  }

  lemma {:induction false} NothingInUse(tids: seq<nat>)
    requires forall i :: 0 <= i < |tids| ==> tids[i] == 0
    ensures InUse(tids) == 0
  {
    if |tids| > 0 {
      NothingInUse(tids[..|tids| - 1]);
    }
  }

  lemma NotAllInUse(tids: seq<nat>, i: nat)
    requires i < |tids| && tids[i] == 0
    ensures InUse(tids) < |tids|
  {
    assert tids == tids[..i] + [tids[i]] + tids[i + 1..];
    InUseAppend(tids[..i], [tids[i]]);
    InUseAppend(tids[..i] + [tids[i]], tids[i + 1..]);
    assert [tids[i]][..0] == [];
  }
}
