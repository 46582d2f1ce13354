/**
 The range map of perfprofd/map_utils.h: offsets grouped into runs of one symbol.
 */
module RangeMaps {
  import opened Options

  // The offsets of a run, and their symbol.
  datatype Aggregate<S> = Aggregate(symbol: S, offsets: set<nat>)

  /* The runs of a map from offsets to symbols. */

  // All offsets from a to b have the symbol of a.
  ghost predicate Joined<S(!new)>(f: map<nat, S>, a: nat, b: nat)
    requires a in f
  {
    forall x :: x in f && a <= x <= b ==> f[x] == f[a]
  }

  // No offset before k continues into it.
  ghost predicate Starts<S(!new)>(f: map<nat, S>, k: nat)
    requires k in f
  {
    forall a :: a in f && a < k ==> !Joined(f, a, k)
  }

  ghost function RunFrom<S(!new)>(f: map<nat, S>, k: nat): Aggregate<S>
    requires k in f
  {
    Aggregate(f[k], set x | x in f && k <= x && Joined(f, k, x))
  }

  // Each maximal run of offsets with one symbol, under its least offset.
  ghost function Runs<S(!new)>(f: map<nat, S>): map<nat, Aggregate<S>> {
    map k | k in f && Starts(f, k) :: RunFrom(f, k)
  }

  function FirstWins<S>(f: map<nat, S>, sym: S, val: nat): map<nat, S> {
    if val in f then f else f[val := sym]
  }

  function InsertAll<S>(f: map<nat, S>, inserts: seq<(S, nat)>): map<nat, S> {
    if |inserts| == 0 then f
    else FirstWins(InsertAll(f, inserts[..|inserts| - 1]), inserts[|inserts| - 1].0, inserts[|inserts| - 1].1)
  }

  // Runs do not overlap.
  lemma RunsApart<S(!new)>(f: map<nat, S>, j: nat, k: nat, x: nat, y: nat)
    requires j in Runs(f) && k in Runs(f) && j < k && x in Runs(f)[j].offsets && y in Runs(f)[k].offsets
    ensures x < y
  {
    assert Joined(f, j, x) && !Joined(f, j, k);
  }

  /* What the entries keep. */

  predicate Keyed<S>(m: map<nat, Aggregate<S>>) {
    forall k :: k in m ==> k in m[k].offsets && forall x :: x in m[k].offsets ==> k <= x
  }

  predicate Ordered<S>(m: map<nat, Aggregate<S>>) {
    forall j, k, x :: j in m && k in m && j < k && x in m[j].offsets ==> x < k
  }

  predicate Between<S>(m: map<nat, Aggregate<S>>, j: nat, k: nat) {
    exists i :: i in m && j < i < k
  }

  predicate Alternate<S(==)>(m: map<nat, Aggregate<S>>) {
    forall j, k :: j in m && k in m && j < k && m[j].symbol == m[k].symbol ==> Between(m, j, k)
  }

  ghost predicate Flattens<S>(m: map<nat, Aggregate<S>>, f: map<nat, S>) {
    && (forall k, x :: k in m && x in m[k].offsets ==> x in f && f[x] == m[k].symbol)
    && (forall x :: x in f ==> exists k :: k in m && x in m[k].offsets)
  }

  ghost predicate Proper<S>(m: map<nat, Aggregate<S>>, f: map<nat, S>) {
    Keyed(m) && Ordered(m) && Alternate(m) && Flattens(m, f)
  }

  // The greatest key that is at most val.
  predicate IsLeq<S>(m: map<nat, Aggregate<S>>, val: nat, k: nat) {
    k in m && k <= val && forall j :: j in m && j <= val ==> j <= k
  }

  predicate NoLeq<S>(m: map<nat, Aggregate<S>>, val: nat) {
    forall j :: j in m ==> j > val
  }

  // The entry after val.
  predicate IsNext<S>(m: map<nat, Aggregate<S>>, val: nat, k: nat) {
    k in m && k > val && forall j :: j in m && j > val ==> j >= k
  }

  lemma {:induction false} Greatest(s: set<nat>) returns (k: nat)
    requires exists x :: x in s
    ensures k in s && forall j :: j in s ==> j <= k
  {
    var x :| x in s;
    if forall j :: j in s ==> j <= x {
      k := x;
    } else {
      var y :| y in s && y > x;
      assert y in s - {x};
      k := Greatest(s - {x});
      forall j | j in s ensures j <= k {
        assert j == x || j in s - {x};
      }
    }
  }

  lemma SameSet(a: set<nat>, b: set<nat>)
    requires forall x :: x in a <==> x in b
    ensures a == b
  {
  }

  lemma SameMap<T>(a: map<nat, T>, b: map<nat, T>)
    requires forall k :: k in a <==> k in b
    requires forall k :: k in a ==> a[k] == b[k]
    ensures a == b
  {
  }

  // Entries that are proper are the runs.
  lemma ProperIsRuns<S(!new)>(m: map<nat, Aggregate<S>>, f: map<nat, S>)
    requires Proper(m, f)
    ensures m == Runs(f)
  {
    hide Proper, Starts, RunFrom;
    forall k: nat ensures k in m <==> k in f && Starts(f, k) {
      if k in m {
        EntryIsRun(m, f, k);
      } else if k in f && Starts(f, k) {
        StartIsKey(m, f, k);
      }
    }
    forall k: nat | k in m ensures m[k] == Runs(f)[k] {
      EntryIsRun(m, f, k);
    }
    SameMap(m, Runs(f));
  }

  lemma EntryIsRun<S(!new)>(m: map<nat, Aggregate<S>>, f: map<nat, S>, k: nat)
    requires Proper(m, f) && k in m
    ensures k in f && Starts(f, k) && m[k] == RunFrom(f, k)
  {
    hide Proper, Joined;
    KeyInFlat(m, f, k);
    forall a: nat | a in f && a < k ensures !Joined(f, a, k) {
      var j := EntryOf(m, f, a);
      NotJoinedAcross(m, f, j, a, k, k);
    }
    forall x: nat ensures x in m[k].offsets <==> x in f && k <= x && Joined(f, k, x) {
      if x in m[k].offsets {
        EntryJoined(m, f, k, x);
      } else if x in f && k <= x && Joined(f, k, x) {
        JoinedInEntry(m, f, k, x);
      }
    }
    SameSet(m[k].offsets, RunFrom(f, k).offsets);
  }

  lemma KeyInFlat<S(!new)>(m: map<nat, Aggregate<S>>, f: map<nat, S>, k: nat)
    requires Proper(m, f) && k in m
    ensures k in m[k].offsets && k in f && f[k] == m[k].symbol
  {
  }

  lemma EntryOf<S(!new)>(m: map<nat, Aggregate<S>>, f: map<nat, S>, a: nat) returns (j: nat)
    requires Proper(m, f) && a in f
    ensures j in m && a in m[j].offsets && j <= a
  {
    j :| j in m && a in m[j].offsets;
  }

  // Whatever lies between the offsets of an entry belongs to it.
  lemma EntryJoined<S(!new)>(m: map<nat, Aggregate<S>>, f: map<nat, S>, k: nat, x: nat)
    requires Proper(m, f) && k in m && x in m[k].offsets
    ensures k in f && x in f && k <= x && Joined(f, k, x)
  {
    assert k in m[k].offsets;
    forall y | y in f && k <= y <= x ensures f[y] == f[k] {
      var j :| j in m && y in m[j].offsets;
      assert (j < k ==> y < k) && (k < j ==> x < j);
    }
  }

  // Offsets of two entries are not joined.
  lemma NotJoinedAcross<S(!new)>(m: map<nat, Aggregate<S>>, f: map<nat, S>, j: nat, a: nat, k: nat, x: nat)
    requires Proper(m, f) && j in m && k in m && j < k && a in m[j].offsets && x in m[k].offsets
    ensures a in f && !Joined(f, a, x)
  {
    var i := FirstChange(m, j, k);
    assert i in m[i].offsets && a < i <= k <= x;
    assert f[i] == m[i].symbol && f[a] == m[j].symbol;
  }

  // After an entry comes one with another symbol.
  lemma {:induction false} FirstChange<S>(m: map<nat, Aggregate<S>>, j: nat, k: nat) returns (i: nat)
    requires Alternate(m) && j in m && k in m && j < k
    ensures i in m && j < i <= k && m[i].symbol != m[j].symbol
    decreases k - j
  {
    if m[j].symbol == m[k].symbol {
      assert Between(m, j, k);
      var b :| b in m && j < b < k;
      i := FirstChange(m, j, b);
    } else {
      i := k;
    }
  }

  lemma JoinedInEntry<S(!new)>(m: map<nat, Aggregate<S>>, f: map<nat, S>, k: nat, x: nat)
    requires Proper(m, f) && k in m && x in f && k <= x && k in f && Joined(f, k, x)
    ensures x in m[k].offsets
  {
    var j :| j in m && x in m[j].offsets;
    assert k in m[k].offsets && (j < k ==> x < k);
    if k < j {
      NotJoinedAcross(m, f, k, k, j, x);
    }
  }

  lemma StartIsKey<S(!new)>(m: map<nat, Aggregate<S>>, f: map<nat, S>, x: nat)
    requires Proper(m, f) && x in f && Starts(f, x)
    ensures x in m
  {
    var k :| k in m && x in m[k].offsets;
    EntryJoined(m, f, k, x);
    assert k in m[k].offsets;
    assert k == x;
  }

  /* The ways an insert changes the entries. */

  // Entries with this symbol before val have another entry between them and val.
  predicate ApartBefore<S(==)>(m: map<nat, Aggregate<S>>, sym: S, val: nat) {
    forall j :: j in m && j < val && m[j].symbol == sym ==> Between(m, j, val)
  }

  predicate ApartAfter<S(==)>(m: map<nat, Aggregate<S>>, sym: S, val: nat) {
    forall k :: k in m && k > val && m[k].symbol == sym ==> Between(m, val, k)
  }

  // Entries before val end before it.
  predicate EndBefore<S>(m: map<nat, Aggregate<S>>, val: nat) {
    forall j, x :: j in m && j < val && x in m[j].offsets ==> x < val
  }

  // A new entry of its own.
  lemma NewEntry<S(!new)>(m: map<nat, Aggregate<S>>, f: map<nat, S>, sym: S, val: nat)
    requires Proper(m, f) && val !in m && EndBefore(m, val) && ApartBefore(m, sym, val) && ApartAfter(m, sym, val)
    ensures val !in f && Proper(m[val := Aggregate(sym, {val})], f[val := sym])
  {
    var m' := m[val := Aggregate(sym, {val})];
    forall j, k | j in m' && k in m' && j < k && m'[j].symbol == m'[k].symbol ensures Between(m', j, k) {
      assert Between(m, j, k);
      var i :| i in m && j < i < k;
      assert i in m';
    }
    NewFlat(m, f, sym, val);
  }

  lemma NewFlat<S(!new)>(m: map<nat, Aggregate<S>>, f: map<nat, S>, sym: S, val: nat)
    requires Proper(m, f) && val !in m && EndBefore(m, val)
    ensures val !in f && Flattens(m[val := Aggregate(sym, {val})], f[val := sym])
  {
    hide Alternate;
    var m', f' := m[val := Aggregate(sym, {val})], f[val := sym];
    if val in f {
      var j := EntryOf(m, f, val);
      assert false;
    }
    forall x: nat | x in f' ensures exists k :: k in m' && x in m'[k].offsets {
      if x == val {
        assert val in m'[val].offsets;
      } else {
        var k := EntryOf(m, f, x);
        assert x in m'[k].offsets;
      }
    }
  }

  // The next entry starts earlier.
  lemma ExtendedLeft<S(!new)>(m: map<nat, Aggregate<S>>, f: map<nat, S>, sym: S, val: nat, k: nat)
    requires Proper(m, f) && IsNext(m, val, k) && m[k].symbol == sym && val !in m
    requires EndBefore(m, val) && ApartBefore(m, sym, val)
    ensures val !in f && Proper((m - {k})[val := Aggregate(sym, m[k].offsets + {val})], f[val := sym])
  {
    var m' := (m - {k})[val := Aggregate(sym, m[k].offsets + {val})];
    forall j, l | j in m' && l in m' && j < l && m'[j].symbol == m'[l].symbol ensures Between(m', j, l) {
      if l == val {
        assert Between(m, j, val);
        var i :| i in m && j < i < val;
        assert i in m';
      } else if j == val {
        assert Between(m, k, l);
        var i :| i in m && k < i < l;
        assert i in m';
      } else {
        assert Between(m, j, l);
        var i :| i in m && j < i < l;
        assert if i == k then val in m' && j < val < l else i in m';
      }
    }
    ExtendedFlat(m, f, sym, val, k);
  }

  lemma ExtendedFlat<S(!new)>(m: map<nat, Aggregate<S>>, f: map<nat, S>, sym: S, val: nat, k: nat)
    requires Proper(m, f) && IsNext(m, val, k) && m[k].symbol == sym && val !in m && EndBefore(m, val)
    ensures val !in f && Flattens((m - {k})[val := Aggregate(sym, m[k].offsets + {val})], f[val := sym])
  {
    hide Alternate;
    NewFlat(m, f, sym, val);
    var m', f' := (m - {k})[val := Aggregate(sym, m[k].offsets + {val})], f[val := sym];
    forall x: nat | x in f' ensures exists l :: l in m' && x in m'[l].offsets {
      if x == val {
        assert val in m'[val].offsets;
      } else {
        var l := EntryOf(m, f, x);
        assert x in m'[if l == k then val else l].offsets;
      }
    }
  }

  // One offset more in the entry before val.
  lemma JoinedEntry<S(!new)>(m: map<nat, Aggregate<S>>, f: map<nat, S>, sym: S, val: nat, k: nat)
    requires Proper(m, f) && IsLeq(m, val, k) && m[k].symbol == sym
    ensures Proper(m[k := Aggregate(sym, m[k].offsets + {val})], f[val := sym]) && FirstWins(f, sym, val) == f[val := sym]
  {
    var m', f' := m[k := Aggregate(sym, m[k].offsets + {val})], f[val := sym];
    if val in f {
      var j := EntryOf(m, f, val);
      assert j <= k && (j < k ==> val < k);
      assert f' == f;
    }
    forall j, l | j in m' && l in m' && j < l && m'[j].symbol == m'[l].symbol ensures Between(m', j, l) {
      assert Between(m, j, l);
      var i :| i in m && j < i < l;
      assert i in m';
    }
    forall x: nat | x in f' ensures exists l :: l in m' && x in m'[l].offsets {
      if x == val {
        assert val in m'[k].offsets;
      } else {
        var l := EntryOf(m, f, x);
        assert x in m'[l].offsets;
      }
    }
  }

  function Below(offsets: set<nat>, val: nat): set<nat> {
    set x | x in offsets && x < val
  }

  function Above(offsets: set<nat>, val: nat): set<nat> {
    set x | x in offsets && x > val
  }

  predicate IsLeast(offsets: set<nat>, k: nat) {
    k in offsets && forall x :: x in offsets ==> k <= x
  }

  // An entry cut in two around val.
  function CutAround<S>(m: map<nat, Aggregate<S>>, sym: S, val: nat, k: nat, r: nat): map<nat, Aggregate<S>>
    requires k in m
  {
    m[k := Aggregate(m[k].symbol, Below(m[k].offsets, val))][val := Aggregate(sym, {val})]
     [r := Aggregate(m[k].symbol, Above(m[k].offsets, val))]
  }

  lemma CutEntry<S(!new)>(m: map<nat, Aggregate<S>>, f: map<nat, S>, sym: S, val: nat, k: nat, r: nat)
    requires Proper(m, f) && IsLeq(m, val, k) && m[k].symbol != sym && val !in m[k].offsets
    requires IsLeast(Above(m[k].offsets, val), r)
    ensures val !in f && Proper(CutAround(m, sym, val, k, r), f[val := sym])
  {
    hide Keyed, Ordered, Alternate, Flattens, CutAround, IsLeast;
    CutOrdered(m, f, sym, val, k, r);
    CutAlternate(m, f, sym, val, k, r);
    CutFlat(m, f, sym, val, k, r);
  }

  lemma CutOrdered<S(!new)>(m: map<nat, Aggregate<S>>, f: map<nat, S>, sym: S, val: nat, k: nat, r: nat)
    requires Proper(m, f) && IsLeq(m, val, k) && val !in m[k].offsets && IsLeast(Above(m[k].offsets, val), r)
    ensures Keyed(CutAround(m, sym, val, k, r)) && Ordered(CutAround(m, sym, val, k, r))
  {
    hide Alternate, Flattens;
    assert k in m[k].offsets && k < val < r && r in m[k].offsets;
    assert forall l :: l in m && l > k ==> l > r;
  }

  lemma CutAlternate<S(!new)>(m: map<nat, Aggregate<S>>, f: map<nat, S>, sym: S, val: nat, k: nat, r: nat)
    requires Proper(m, f) && IsLeq(m, val, k) && m[k].symbol != sym && val !in m[k].offsets
    requires IsLeast(Above(m[k].offsets, val), r)
    ensures Alternate(CutAround(m, sym, val, k, r))
  {
    hide Flattens;
    var m' := CutAround(m, sym, val, k, r);
    assert k in m[k].offsets && k < val < r && r in m[k].offsets;
    assert forall l :: l in m && l > k ==> l > r;
    forall j, l | j in m' && l in m' && j < l && m'[j].symbol == m'[l].symbol ensures Between(m', j, l) {
      if j < k < l {
        assert k in m';
      } else if j <= val < l && j != val {
        assert j == k && val in m';
      } else if j == val {
        assert l > r && r in m';
      } else {
        var from := if j == r then k else j;
        assert Between(m, from, l);
        var i :| i in m && from < i < l;
        assert i in m' && i > j;
      }
    }
  }

  lemma CutFlat<S(!new)>(m: map<nat, Aggregate<S>>, f: map<nat, S>, sym: S, val: nat, k: nat, r: nat)
    requires Proper(m, f) && IsLeq(m, val, k) && val !in m[k].offsets && IsLeast(Above(m[k].offsets, val), r)
    ensures val !in f && Flattens(CutAround(m, sym, val, k, r), f[val := sym])
  {
    hide Alternate;
    var m', f' := CutAround(m, sym, val, k, r), f[val := sym];
    assert k in m[k].offsets && k < val < r && r in m[k].offsets;
    assert forall l :: l in m && l > k ==> l > r;
    NotYet(m, f, val, k);
    forall x: nat | x in f' ensures exists l :: l in m' && x in m'[l].offsets {
      if x == val {
        assert val in m'[val].offsets;
      } else {
        var l := EntryOf(m, f, x);
        assert x in m'[if l == k && x > val then r else l].offsets;
      }
    }
  }

  // An offset the entry before it does not have is not in any entry.
  lemma NotYet<S(!new)>(m: map<nat, Aggregate<S>>, f: map<nat, S>, val: nat, k: nat)
    requires Proper(m, f) && IsLeq(m, val, k) && val !in m[k].offsets
    ensures val !in f
  {
    if val in f {
      var j := EntryOf(m, f, val);
      assert false;
    }
  }

  lemma LeqFacts<S(!new)>(m: map<nat, Aggregate<S>>, f: map<nat, S>, sym: S, val: nat, k: nat)
    requires Proper(m, f) && IsLeq(m, val, k) && m[k].symbol != sym && (forall x :: x in m[k].offsets ==> x < val)
    ensures val !in m && EndBefore(m, val) && ApartBefore(m, sym, val)
  {
    assert k in m[k].offsets;
    forall j | j in m && j < val && m[j].symbol == sym ensures Between(m, j, val) {
      assert k in m && j < k < val;
    }
  }

  lemma {:induction false} Least(s: set<nat>) returns (k: nat)
    requires exists x :: x in s
    ensures IsLeast(s, k)
  {
    var x :| x in s;
    if forall j :: j in s ==> x <= j {
      k := x;
    } else {
      var y :| y in s && y < x;
      assert y in s - {x};
      k := Least(s - {x});
      forall j | j in s ensures k <= j {
        assert j == x || j in s - {x};
      }
    }
  }

  method LeastOf(s: set<nat>) returns (k: nat)
    requires exists x :: x in s
    ensures IsLeast(s, k)
  {
    ghost var k0 := Least(s);
    k :| k in s && forall x :: x in s ==> k <= x;
  }

  method GreatestOf(s: set<nat>) returns (k: nat)
    requires exists x :: x in s
    ensures k in s && forall x :: x in s ==> x <= k
  {
    ghost var k0 := Greatest(s);
    k :| k in s && forall x :: x in s ==> x <= k;
  }

  // The offsets below val, taken one by one from the least, and the others.
  method SplitAt(offsets: set<nat>, val: nat) returns (left: set<nat>, rest: set<nat>, least: nat)
    requires exists x :: x in offsets && x >= val
    ensures left == Below(offsets, val) && rest == offsets - left && IsLeast(rest, least) && least >= val
  {
    left, rest := {}, offsets;
    ghost var z :| z in offsets && z >= val;
    least := LeastOf(rest);
    while least < val
      invariant left + rest == offsets && left !! rest && z in rest && IsLeast(rest, least)
      invariant forall x :: x in left ==> x < val
      decreases |rest|
    {
      left, rest := left + {least}, rest - {least};
      assert z in rest;
      least := LeastOf(rest);
    }
    forall x: nat ensures x in left <==> x in Below(offsets, val) {
      assert x in offsets <==> x in left || x in rest;
    }
    SameSet(left, Below(offsets, val));
  }

  class RangeMap<S(==, !new)> {
    var entries: map<nat, Aggregate<S>>
    // The symbol of each offset.
    ghost var flat: map<nat, S>

    ghost predicate Valid()
      reads this
    {
      Proper(entries, flat)
    }

    constructor ()
      ensures Valid() && flat == map[] && entries == map[]
    {
      entries, flat := map[], map[];
    }

    method GetLeq(val: nat) returns (r: Option<nat>)
      ensures match r case None => NoLeq(entries, val) case Some(k) => IsLeq(entries, val, k)
    {
      var keys := set k | k in entries && k <= val;
      if exists k :: k in keys {
        var k := GreatestOf(keys);
        forall j | j in entries && j <= val ensures j <= k {
          assert j in keys;
        }
        return Some(k);
      }
      forall j | j in entries ensures j > val {
        assert j in keys <==> j <= val;
      }
      return None;
    }

    method GetNext(val: nat) returns (r: Option<nat>)
      ensures match r case None => (forall j :: j in entries ==> j <= val) case Some(k) => IsNext(entries, val, k)
    {
      var keys := set k | k in entries && k > val;
      if exists k :: k in keys {
        var k := LeastOf(keys);
        forall j | j in entries && j > val ensures j >= k {
          assert j in keys;
        }
        return Some(k);
      }
      forall j | j in entries ensures j <= val {
        assert j in keys <==> j > val;
      }
      return None;
    }

    // Moves an entry to an earlier key.
    method ExtendLeft(k: nat, val: nat)
      requires Valid() && IsNext(entries, val, k) && val !in entries
      requires EndBefore(entries, val) && ApartBefore(entries, entries[k].symbol, val)
      modifies this
      ensures Valid() && val !in old(flat) && flat == old(flat)[val := old(entries)[k].symbol]
    {
      hide Proper;
      ExtendedLeft(entries, flat, entries[k].symbol, val, k);
      var copy := entries[k];
      flat := flat[val := copy.symbol];
      entries := entries - {k};
      entries := entries[val := Aggregate(copy.symbol, copy.offsets + {val})];
    }

    // The offset gets the symbol unless it has one already, and the entries are the runs again.
    method Insert(sym: S, val: nat)
      requires Valid()
      modifies this
      ensures Valid() && flat == FirstWins(old(flat), sym, val) && entries == Runs(flat)
    {
      hide Proper, Runs;
      var leq := GetLeq(val);
      if leq.None? {
        InsertFirst(sym, val);
      } else if entries[leq.value].symbol == sym {
        var k := leq.value;
        JoinedEntry(entries, flat, sym, val, k);
        entries := entries[k := Aggregate(sym, entries[k].offsets + {val})];
        flat := flat[val := sym];
      } else {
        InsertAfter(sym, val, leq.value);
      }
      ProperIsRuns(entries, flat);
    }

    // No entry starts at or before val.
    method InsertFirst(sym: S, val: nat)
      requires Valid() && NoLeq(entries, val)
      modifies this
      ensures Valid() && flat == FirstWins(old(flat), sym, val)
    {
      hide Proper;
      var first := GetNext(val);
      if first.Some? && entries[first.value].symbol == sym {
        ExtendLeft(first.value, val);
        return;
      }
      AfterDiffers(entries, sym, val, first);
      NewEntry(entries, flat, sym, val);
      entries, flat := entries[val := Aggregate(sym, {val})], flat[val := sym];
    }

    // The entry before val has another symbol.
    method InsertAfter(sym: S, val: nat, k: nat)
      requires Valid() && IsLeq(entries, val, k) && entries[k].symbol != sym
      modifies this
      ensures Valid() && flat == FirstWins(old(flat), sym, val)
    {
      hide Proper;
      KeyInFlat(entries, flat, k);
      var aggr := entries[k];
      var last := GreatestOf(aggr.offsets);
      if last < val {
        LeqFacts(entries, flat, sym, val, k);
        var next := GetNext(val);
        if next.Some? && entries[next.value].symbol == sym {
          ExtendLeft(next.value, val);
          return;
        }
        AfterDiffers(entries, sym, val, next);
        NewEntry(entries, flat, sym, val);
        entries, flat := entries[val := Aggregate(sym, {val})], flat[val := sym];
        return;
      }
      var left, rest, r := SplitAt(aggr.offsets, val);
      if r == val {
        InEntry(entries, flat, k, val);
        return;
      }
      RestIsAbove(aggr.offsets, left, rest, val, r);
      CutEntry(entries, flat, sym, val, k, r);
      entries := entries[k := Aggregate(aggr.symbol, left)][val := Aggregate(sym, {val})][r := Aggregate(aggr.symbol, rest)];
      flat := flat[val := sym];
    }
  }

  lemma AfterDiffers<S>(m: map<nat, Aggregate<S>>, sym: S, val: nat, next: Option<nat>)
    requires match next case None => (forall j :: j in m ==> j <= val) case Some(k) => IsNext(m, val, k)
    requires next.Some? ==> m[next.value].symbol != sym
    ensures ApartAfter(m, sym, val)
  {
    forall k | k in m && k > val && m[k].symbol == sym ensures Between(m, val, k) {
      assert next.Some? && val < next.value < k;
    }
  }

  lemma InEntry<S(!new)>(m: map<nat, Aggregate<S>>, f: map<nat, S>, k: nat, x: nat)
    requires Proper(m, f) && k in m && x in m[k].offsets
    ensures x in f
  {
  }

  lemma RestIsAbove(offsets: set<nat>, left: set<nat>, rest: set<nat>, val: nat, r: nat)
    requires left == Below(offsets, val) && rest == offsets - left && IsLeast(rest, r) && r > val
    ensures rest == Above(offsets, val) && val !in offsets
  {
    assert val in offsets ==> val in rest;
    forall x: nat ensures x in rest <==> x in Above(offsets, val) {
    }
    SameSet(rest, Above(offsets, val));
  }

  // After any inserts the entries are the runs of the map in which the first symbol of an offset wins.
  method Build<S(==, !new)>(inserts: seq<(S, nat)>) returns (entries: map<nat, Aggregate<S>>)
    ensures entries == Runs(InsertAll(map[], inserts))
  {
    hide Proper, Runs, FirstWins;
    var ranges := new RangeMap<S>();
    EmptyRuns<S>();
    for i := 0 to |inserts|
      invariant ranges.Valid() && ranges.flat == InsertAll(map[], inserts[..i]) && ranges.entries == Runs(ranges.flat)
    {
      assert inserts[..i + 1][..i] == inserts[..i];
      ranges.Insert(inserts[i].0, inserts[i].1);
    }
    assert inserts[..|inserts|] == inserts;
    return ranges.entries;
  }

  lemma EmptyRuns<S(!new)>()
    ensures Runs<S>(map[]) == map[]
  {
  }

  /* Order does not matter. */

  // Inserts that agree on every offset.
  predicate NoConflict<S(==)>(inserts: seq<(S, nat)>) {
    forall i, j :: 0 <= i < |inserts| && 0 <= j < |inserts| && inserts[i].1 == inserts[j].1 ==> inserts[i].0 == inserts[j].0
  }

  lemma {:induction false} InsertedIs<S>(inserts: seq<(S, nat)>)
    requires NoConflict(inserts)
    ensures forall x :: x in InsertAll(map[], inserts) <==> exists i :: 0 <= i < |inserts| && inserts[i].1 == x
    ensures forall i :: 0 <= i < |inserts| ==> InsertAll(map[], inserts)[inserts[i].1] == inserts[i].0
  {
    if |inserts| > 0 {
      var n := |inserts| - 1;
      InsertedIs(inserts[..n]);
    }
  }

  lemma InsertedSame<S(!new)>(a: seq<(S, nat)>, b: seq<(S, nat)>, x: nat)
    requires NoConflict(a) && NoConflict(b) && (forall p :: p in a ==> p in b) && x in InsertAll(map[], a)
    ensures x in InsertAll(map[], b) && InsertAll(map[], b)[x] == InsertAll(map[], a)[x]
  {
    InsertedIs(a);
    InsertedIs(b);
    var i :| 0 <= i < |a| && a[i].1 == x;
    assert a[i] in b;
    var j :| 0 <= j < |b| && b[j] == a[i];
    assert b[j].1 == x;
  }

  // The runs after inserts without conflicts depend on what is inserted, not on the order.
  lemma OrderIrrelevant<S(!new)>(a: seq<(S, nat)>, b: seq<(S, nat)>)
    requires NoConflict(a) && NoConflict(b) && forall p :: p in a <==> p in b
    ensures Runs(InsertAll(map[], a)) == Runs(InsertAll(map[], b))
  {
    forall x: nat | x in InsertAll(map[], a)
      ensures x in InsertAll(map[], b) && InsertAll(map[], b)[x] == InsertAll(map[], a)[x]
    {
      InsertedSame(a, b, x);
    }
    forall x: nat | x in InsertAll(map[], b) ensures x in InsertAll(map[], a) {
      InsertedSame(b, a, x);
    }
    SameMap(InsertAll(map[], a), InsertAll(map[], b));
  }
}
