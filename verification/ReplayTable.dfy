/**
 What every step of a worker keeps true of the shared pointer table (memory_replay/Pointers.cpp).
 `b` is the table the finished part of the log asks for: a map from key to the allocating line.
 */
module ReplayTable {
  import opened Replay
  import Arith

  // A worker that has yet to put its key in the table.
  predicate Adding(t: Thread) {
    && t.pending && Adds(t.action)
    && (t.pc.Probing? || t.pc.Claimed? || t.pc.Stored? || (!DoesFree(t.action) && (t.pc.Waiting? || t.pc.Running?)))
  }

  // A worker that has yet to take its old key out of the table.
  predicate Removing(t: Thread) {
    && t.pending && DoesFree(t.action)
    && (t.pc.Waiting? || t.pc.Running? || t.pc.Seeking? || t.pc.Clearing?)
  }

  predicate Alone(s: State, w: nat) {
    forall v :: 0 <= v < |s.threads| && v != w ==> !s.threads[v].pending
  }

  predicate Keyless(table: seq<Cell>, k: nat) {
    forall i :: 0 <= i < |table| && !table[i].Empty? ==> table[i].key != k
  }

  predicate CellOk(s: State, b: map<nat, nat>, i: nat)
    requires i < |s.table|
  {
    var c := s.table[i];
    && (!c.Empty? ==> c.key in b && c.key >= 2)
    && (c.Full? ==> b[c.key] == c.ptr)
    && (c.Busy? || c.Half? ==>
          && c.owner < |s.threads| && Adding(s.threads[c.owner]) && s.threads[c.owner].action.key == c.key
          && s.threads[c.owner].pc == if c.Busy? then Claimed(i) else Stored(i))
  }

  predicate AdderOk(s: State, b: map<nat, nat>, w: nat)
    requires w < |s.threads|
  {
    var t, m := s.threads[w], |s.table|;
    Adding(t) ==>
      && t.action.key in b && b[t.action.key] == t.line && t.action.key >= 2
      && (match t.pc
          case Claimed(i) => i < m && s.table[i] == Busy(t.action.key, w)
          case Stored(i) => i < m && s.table[i] == Half(t.action.key, w)
          case Probing(i, tried) =>
            && m > 0 && Keyless(s.table, t.action.key) && tried <= m && i == At(Home(t.action.key, m), tried, m)
            && forall j :: 0 <= j < tried ==> !s.table[At(Home(t.action.key, m), j, m)].Empty?
          case _ => Keyless(s.table, t.action.key))
  }

  // The slot that holds key k is among the `left` ones from i on.
  predicate Ahead(table: seq<Cell>, k: nat, i: nat, left: nat)
    requires i < |table| && left <= |table|
  {
    exists j :: 0 <= j < left && table[At(i, j, |table|)].Full? && table[At(i, j, |table|)].key == k
  }

  predicate RemoverOk(s: State, b: map<nat, nat>, w: nat)
    requires w < |s.threads|
  {
    var t := s.threads[w];
    Removing(t) ==>
      && FreeKey(t.action) in b && Alone(s, w)
      && (match t.pc
          case Seeking(i, left) => i < |s.table| && left <= |s.table| && Ahead(s.table, FreeKey(t.action), i, left)
          case Clearing(i) => i < |s.table| && s.table[i].Full? && s.table[i].key == FreeKey(t.action)
          case _ => true)
  }

  predicate OneCellPerKey(table: seq<Cell>) {
    forall i, j :: 0 <= i < j < |table| && !table[i].Empty? && !table[j].Empty? ==> table[i].key != table[j].key
  }

  predicate OneAdderPerKey(s: State) {
    forall v, w :: 0 <= v < w < |s.threads| && Adding(s.threads[v]) && Adding(s.threads[w]) ==>
                     s.threads[v].action.key != s.threads[w].action.key
  }

  predicate InTable(s: State, k: nat) {
    exists i :: 0 <= i < |s.table| && s.table[i].Full? && s.table[i].key == k
  }

  predicate OnItsWay(s: State, k: nat) {
    exists w :: 0 <= w < |s.threads| && Adding(s.threads[w]) && s.threads[w].action.key == k
  }

  predicate TableInv(s: State, b: map<nat, nat>) {
    && (forall i :: 0 <= i < |s.table| ==> CellOk(s, b, i))
    && (forall w :: 0 <= w < |s.threads| ==> AdderOk(s, b, w))
    && (forall w :: 0 <= w < |s.threads| ==> RemoverOk(s, b, w))
    && OneCellPerKey(s.table) && OneAdderPerKey(s)
    && (forall k :: k in b ==> InTable(s, k) || OnItsWay(s, k))
  }

  // A step that changes one thread, keeps what that thread adds, and leaves the table alone.
  lemma ThreadStep(s: State, b: map<nat, nat>, w: nat, t: Thread)
    requires w < |s.threads| && TableInv(s, b)
    requires Adding(t) == Adding(s.threads[w]) && (Adding(t) ==> t.action == s.threads[w].action)
    requires t.pending ==> s.threads[w].pending
    requires Adding(t) && (s.threads[w].pc.Claimed? || s.threads[w].pc.Stored?) ==> t.pc == s.threads[w].pc
    requires AdderOk(s.(threads := s.threads[w := t]), b, w) && RemoverOk(s.(threads := s.threads[w := t]), b, w)
    ensures TableInv(s.(threads := s.threads[w := t]), b)
  {
    var s' := s.(threads := s.threads[w := t]);
    forall i | 0 <= i < |s.table| ensures CellOk(s', b, i) {
      assert CellOk(s, b, i);
    }
    forall v | 0 <= v < |s.threads| ensures AdderOk(s', b, v) && RemoverOk(s', b, v) {
      assert AdderOk(s, b, v) && RemoverOk(s, b, v);
    }
    forall k | k in b ensures InTable(s', k) || OnItsWay(s', k) {
      if InTable(s, k) {
        var i :| 0 <= i < |s.table| && s.table[i].Full? && s.table[i].key == k;
        assert s'.table[i].Full?;
      } else {
        var v :| 0 <= v < |s.threads| && Adding(s.threads[v]) && s.threads[v].action.key == k;
        assert Adding(s'.threads[v]);
      }
    }
  }

  lemma SlotAhead(i: nat, h: nat, m: nat) returns (j: nat)
    requires i < m && h < m
    ensures j < m && At(h, j, m) == i
  {
    j := if i >= h then i - h else i - h + m;
  }

  lemma BeginStep(s: State, b: map<nat, nat>, w: nat)
    requires |s.table| > 0 && w < |s.threads| && TableInv(s, b)
    requires s.threads[w].pending && s.threads[w].pc.Running?
    ensures TableInv(SetPc(s, w, Begin(s.threads[w].action, |s.table|)), b)
  {
    var t, m := s.threads[w], |s.table|;
    assert AdderOk(s, b, w) && RemoverOk(s, b, w);
    if DoesFree(t.action) {
      var k := FreeKey(t.action);
      AloneTableFull(s, b, w);
      var i :| 0 <= i < m && s.table[i].Full? && s.table[i].key == k;
      var j := SlotAhead(i, Home(k, m), m);
      assert Ahead(s.table, k, Home(k, m), m);
    }
    ThreadStep(s, b, w, t.(pc := Begin(t.action, m)));
  }

  // While a worker that removes runs, every slot in use is complete, and every key has its slot.
  lemma AloneTableFull(s: State, b: map<nat, nat>, w: nat)
    requires w < |s.threads| && TableInv(s, b) && Removing(s.threads[w])
    ensures forall i :: 0 <= i < |s.table| ==> s.table[i].Empty? || s.table[i].Full?
    ensures forall k :: k in b ==> InTable(s, k)
  {
    assert RemoverOk(s, b, w);
    forall i | 0 <= i < |s.table| ensures s.table[i].Empty? || s.table[i].Full? {
      assert CellOk(s, b, i);
    }
    forall k | k in b ensures InTable(s, k) {
      assert !OnItsWay(s, k);
    }
  }

  lemma SeekStep(s: State, b: map<nat, nat>, w: nat)
    requires w < |s.threads| && s.threads[w].pc.Seeking? && s.threads[w].pending && TableInv(s, b)
    requires WorkerEnabled(s, w) && |s.table| > 0 && PcFits(s.threads[w], |s.table|)
    ensures TableInv(WorkerNext(s, w), b) && !WorkerNext(s, w).threads[w].pc.Failed?
  {
    var t, m := s.threads[w], |s.table|;
    var k, i, left := FreeKey(t.action), t.pc.slot, t.pc.left;
    assert RemoverOk(s, b, w);
    var j :| 0 <= j < left && s.table[At(i, j, m)].Full? && s.table[At(i, j, m)].key == k;
    AloneTableFull(s, b, w);
    assert CellOk(s, b, At(i, j, m)) && CellOk(s, b, i);
    if RawKey(s.table[i]) != k {
      assert j != 0;
      assert At(At(i, 1, m), j - 1, m) == At(i, j, m);
      assert Ahead(s.table, k, At(i, 1, m), left - 1);
    }
    ThreadStep(s, b, w, WorkerNext(s, w).threads[w]);
  }

  // The table asked for once the old key of an action is out.
  function Without(b: map<nat, nat>, a: Action, line: nat): map<nat, nat>
    requires DoesFree(a)
  {
    if Adds(a) then (b - {FreeKey(a)})[a.key := line] else b - {FreeKey(a)}
  }

  lemma ClearStep(s: State, b: map<nat, nat>, w: nat)
    requires w < |s.threads| && s.threads[w].pc.Clearing? && s.threads[w].pending && TableInv(s, b)
    requires WorkerEnabled(s, w) && |s.table| > 0 && PcFits(s.threads[w], |s.table|)
    requires var a := s.threads[w].action; Adds(a) ==> a.key >= 2 && (a.key !in b || a.key == FreeKey(a))
    ensures TableInv(WorkerNext(s, w), Without(b, s.threads[w].action, s.threads[w].line))
    ensures FreeKey(s.threads[w].action) in b
    ensures WorkerNext(s, w).freed == s.freed + [b[FreeKey(s.threads[w].action)]]
  {
    var s', t := WorkerNext(s, w), s.threads[w];
    var b' := Without(b, t.action, t.line);
    AloneTableFull(s, b, w);
    assert RemoverOk(s, b, w) && CellOk(s, b, t.pc.slot);
    ClearedCells(s, b, w);
    forall v | 0 <= v < |s.threads| ensures AdderOk(s', b', v) && RemoverOk(s', b', v) {
      assert v != w ==> !s'.threads[v].pending;
    }
    forall x | x in b' ensures InTable(s', x) || OnItsWay(s', x) {
      if Adds(t.action) && x == t.action.key {
        assert Adding(s'.threads[w]);
      } else {
        assert InTable(s, x);
        var i :| 0 <= i < |s.table| && s.table[i].Full? && s.table[i].key == x;
        assert s'.table[i].Full?;
      }
    }
  }

  lemma ClearedCells(s: State, b: map<nat, nat>, w: nat)
    requires w < |s.threads| && s.threads[w].pc.Clearing? && s.threads[w].pending && TableInv(s, b)
    requires WorkerEnabled(s, w) && |s.table| > 0 && PcFits(s.threads[w], |s.table|)
    requires var a := s.threads[w].action; Adds(a) ==> a.key >= 2 && (a.key !in b || a.key == FreeKey(a))
    ensures forall i :: 0 <= i < |s.table| ==>
                          CellOk(WorkerNext(s, w), Without(b, s.threads[w].action, s.threads[w].line), i)
    ensures Adds(s.threads[w].action) ==> Keyless(WorkerNext(s, w).table, s.threads[w].action.key)
  {
    var s', t := WorkerNext(s, w), s.threads[w];
    var b' := Without(b, t.action, t.line);
    AloneTableFull(s, b, w);
    assert RemoverOk(s, b, w);
    forall i | 0 <= i < |s'.table|
      ensures CellOk(s', b', i) && (Adds(t.action) && !s'.table[i].Empty? ==> s'.table[i].key != t.action.key)
    {
      assert CellOk(s, b, i);
      if i != t.pc.slot && s.table[i].Full? {
        assert s.table[i].key != s.table[t.pc.slot].key;
      }
    }
  }

  lemma {:induction false} KeysOfPrefix(table: seq<Cell>, n: nat) returns (keys: set<nat>)
    requires n <= |table| && OneCellPerKey(table)
    requires forall i :: 0 <= i < |table| ==> !table[i].Empty?
    ensures |keys| == n
    ensures forall k :: k in keys <==> exists i :: 0 <= i < n && table[i].key == k
  {
    if n == 0 {
      keys := {};
    } else {
      var rest := KeysOfPrefix(table, n - 1);
      keys := rest + {table[n - 1].key};
    }
  }

  // A table with no free slot holds as many keys as it has slots.
  lemma NoFreeSlot(s: State, b: map<nat, nat>, k: nat)
    requires TableInv(s, b) && k in b && Keyless(s.table, k)
    requires forall i :: 0 <= i < |s.table| ==> !s.table[i].Empty?
    ensures |s.table| < |b|
  {
    var keys := KeysOfPrefix(s.table, |s.table|);
    forall x | x in keys ensures x in b.Keys - {k} {
      var i :| 0 <= i < |s.table| && s.table[i].key == x;
      assert CellOk(s, b, i);
    }
    Arith.SubsetSize(keys, b.Keys - {k});
    assert |b.Keys - {k}| == |b.Keys| - 1;
  }

  lemma ProbeStep(s: State, b: map<nat, nat>, w: nat)
    requires w < |s.threads| && s.threads[w].pc.Probing? && s.threads[w].pending && TableInv(s, b)
    requires WorkerEnabled(s, w) && |s.table| > 0 && PcFits(s.threads[w], |s.table|) && |b| <= |s.table|
    ensures TableInv(WorkerNext(s, w), b) && !WorkerNext(s, w).threads[w].pc.Failed?
  {
    var t, m := s.threads[w], |s.table|;
    var k, i, tried := t.action.key, t.pc.slot, t.pc.tried;
    assert AdderOk(s, b, w);
    if tried == m {
      forall x | 0 <= x < m ensures !s.table[x].Empty? {
        var j := SlotAhead(x, Home(k, m), m);
      }
      NoFreeSlot(s, b, k);
    }
    assert CellOk(s, b, i);
    if RawKey(s.table[i]) == 0 {
      ClaimSlot(s, b, w);
    } else {
      assert At(i, 1, m) == At(Home(k, m), tried + 1, m);
      ThreadStep(s, b, w, t.(pc := Probing(At(i, 1, m), tried + 1)));
    }
  }

  lemma ClaimSlot(s: State, b: map<nat, nat>, w: nat)
    requires w < |s.threads| && s.threads[w].pc.Probing? && s.threads[w].pending && Adds(s.threads[w].action)
    requires TableInv(s, b) && s.threads[w].pc.slot < |s.table| && s.table[s.threads[w].pc.slot].Empty?
    ensures var k, i := s.threads[w].action.key, s.threads[w].pc.slot;
            TableInv(SetPc(SetCell(s, i, Busy(k, w)), w, Claimed(i)), b)
  {
    var k, i := s.threads[w].action.key, s.threads[w].pc.slot;
    var s' := SetPc(SetCell(s, i, Busy(k, w)), w, Claimed(i));
    assert AdderOk(s, b, w);
    MoveOn(s, s', b, w, i);
  }

  // A worker that puts its own key, or the next stage of it, in slot i.
  predicate Moves(s: State, s': State, w: nat, i: nat) {
    && w < |s.threads| && i < |s.table| && Adding(s.threads[w])
    && |s'.threads| == |s.threads| && |s'.table| == |s.table|
    && s'.threads == s.threads[w := s.threads[w].(pc := s'.threads[w].pc)]
    && s'.table == s.table[i := s'.table[i]]
    && !s'.table[i].Empty? && s'.table[i].key == s.threads[w].action.key
    && (s.table[i].Empty? ==> Keyless(s.table, s.threads[w].action.key))
    && (!s.table[i].Empty? ==> !s.table[i].Full? && s.table[i].owner == w)
    && (s.threads[w].pc.Claimed? || s.threads[w].pc.Stored? ==> s.threads[w].pc.slot == i)
    && (Adding(s'.threads[w]) || s'.table[i].Full?) && !Removing(s'.threads[w])
  }

  lemma MoveOn(s: State, s': State, b: map<nat, nat>, w: nat, i: nat)
    requires TableInv(s, b) && Moves(s, s', w, i) && CellOk(s', b, i) && AdderOk(s', b, w)
    ensures TableInv(s', b)
  {
    forall x | 0 <= x < |s.table| ensures CellOk(s', b, x) {
      MoveKeepsCell(s, s', b, w, i, x);
    }
    forall v | 0 <= v < |s.threads| ensures AdderOk(s', b, v) && RemoverOk(s', b, v) {
      MoveKeepsThread(s, s', b, w, i, v);
    }
    MoveKeepsKeys(s, s', b, w, i);
    forall x | x in b ensures InTable(s', x) || OnItsWay(s', x) {
      MoveKeepsHeld(s, s', b, w, i, x);
    }
  }

  lemma MoveKeepsCell(s: State, s': State, b: map<nat, nat>, w: nat, i: nat, x: nat)
    requires TableInv(s, b) && Moves(s, s', w, i) && CellOk(s', b, i) && x < |s.table|
    ensures CellOk(s', b, x)
  {
    assert CellOk(s, b, x) && CellOk(s, b, i);
  }

  lemma MoveKeepsThread(s: State, s': State, b: map<nat, nat>, w: nat, i: nat, v: nat)
    requires TableInv(s, b) && Moves(s, s', w, i) && AdderOk(s', b, w) && v < |s.threads|
    ensures AdderOk(s', b, v) && RemoverOk(s', b, v)
  {
    assert AdderOk(s, b, v) && RemoverOk(s, b, v) && CellOk(s, b, i);
    assert !Removing(s.threads[v]);
    if v != w && Adding(s.threads[v]) {
      var k := s.threads[v].action.key;
      assert k != s.threads[w].action.key;
      assert Keyless(s.table, k) ==> Keyless(s'.table, k);
    }
  }

  lemma MoveKeepsKeys(s: State, s': State, b: map<nat, nat>, w: nat, i: nat)
    requires TableInv(s, b) && Moves(s, s', w, i)
    ensures OneCellPerKey(s'.table) && OneAdderPerKey(s')
  {
    assert CellOk(s, b, i);
  }

  lemma MoveKeepsHeld(s: State, s': State, b: map<nat, nat>, w: nat, i: nat, x: nat)
    requires TableInv(s, b) && Moves(s, s', w, i) && x in b
    ensures InTable(s', x) || OnItsWay(s', x)
  {
    if InTable(s, x) {
      var j :| 0 <= j < |s.table| && s.table[j].Full? && s.table[j].key == x;
      assert s'.table[j].Full?;
    } else {
      var v :| 0 <= v < |s.threads| && Adding(s.threads[v]) && s.threads[v].action.key == x;
      assert Adding(s'.threads[v]) || s'.table[i].Full?;
    }
  }

  lemma StoreStep(s: State, b: map<nat, nat>, w: nat)
    requires w < |s.threads| && (s.threads[w].pc.Claimed? || s.threads[w].pc.Stored?)
    requires s.threads[w].pending && TableInv(s, b)
    requires WorkerEnabled(s, w) && |s.table| > 0 && PcFits(s.threads[w], |s.table|)
    ensures TableInv(WorkerNext(s, w), b)
  {
    assert AdderOk(s, b, w);
    MoveOn(s, WorkerNext(s, w), b, w, s.threads[w].pc.slot);
  }

  // The dispatcher changing an entry whose thread is idle, before and after.
  lemma IdleChange(s: State, s': State, b: map<nat, nat>, w: nat)
    requires TableInv(s, b) && w < |s.threads| == |s'.threads| && s'.table == s.table
    requires s'.threads == s.threads[w := s'.threads[w]] && !s.threads[w].pending && !s'.threads[w].pending
    ensures TableInv(s', b)
  {
    ThreadStep(s, b, w, s'.threads[w]);
    SameView(s.(threads := s'.threads), s', b);
  }

  // The invariant looks at the table and the threads only.
  lemma SameView(s: State, s': State, b: map<nat, nat>)
    requires TableInv(s, b) && s'.table == s.table && s'.threads == s.threads
    ensures TableInv(s', b)
  {
    forall i | 0 <= i < |s.table| ensures CellOk(s', b, i) {
      assert CellOk(s, b, i);
    }
    forall v | 0 <= v < |s.threads| ensures AdderOk(s', b, v) && RemoverOk(s', b, v) {
      assert AdderOk(s, b, v) && RemoverOk(s, b, v);
    }
    forall k | k in b ensures InTable(s', k) || OnItsWay(s', k) {
      assert InTable(s, k) ==> InTable(s', k);
      assert OnItsWay(s, k) ==> OnItsWay(s', k);
    }
  }

  // An idle thread w is told to run its action.
  predicate Wakes(s: State, s': State, w: nat) {
    && w < |s.threads| == |s'.threads| && s'.table == s.table
    && !s.threads[w].pending && s.threads[w].pc.Waiting?
    && s'.threads == s.threads[w := s.threads[w].(pending := true)]
  }

  // The table asked for once the action has been handed over: a plain allocation counts at once.
  function Told(b: map<nat, nat>, t: Thread): map<nat, nat> {
    if Adds(t.action) && !DoesFree(t.action) then b[t.action.key := t.line] else b
  }

  lemma WakeStep(s: State, s': State, b: map<nat, nat>, w: nat)
    requires TableInv(s, b) && Wakes(s, s', w)
    requires forall v :: 0 <= v < |s.threads| ==> !Removing(s.threads[v])
    requires var a := s.threads[w].action;
             && (DoesFree(a) ==> FreeKey(a) in b && Alone(s, w))
             && (Adds(a) && !DoesFree(a) ==> a.key >= 2 && a.key !in b)
    ensures TableInv(s', Told(b, s.threads[w]))
  {
    var b' := Told(b, s.threads[w]);
    forall i | 0 <= i < |s.table| ensures CellOk(s', b', i) {
      assert CellOk(s, b, i);
    }
    forall v | 0 <= v < |s.threads| ensures AdderOk(s', b', v) && RemoverOk(s', b', v) {
      WakeKeepsThread(s, s', b, w, v);
    }
    forall v | 0 <= v < |s.threads| && v != w && Adding(s.threads[v]) ensures s.threads[v].action.key in b {
      assert AdderOk(s, b, v);
    }
    forall k | k in b' ensures InTable(s', k) || OnItsWay(s', k) {
      if k in b && InTable(s, k) {
        var i :| 0 <= i < |s.table| && s.table[i].Full? && s.table[i].key == k;
        assert s'.table[i].Full?;
      } else if k in b {
        var v :| 0 <= v < |s.threads| && Adding(s.threads[v]) && s.threads[v].action.key == k;
        assert Adding(s'.threads[v]);
      } else {
        assert Adding(s'.threads[w]);
      }
    }
  }

  lemma WakeKeepsThread(s: State, s': State, b: map<nat, nat>, w: nat, v: nat)
    requires TableInv(s, b) && Wakes(s, s', w) && v < |s.threads|
    requires forall u :: 0 <= u < |s.threads| ==> !Removing(s.threads[u])
    requires var a := s.threads[w].action;
             && (DoesFree(a) ==> FreeKey(a) in b && Alone(s, w))
             && (Adds(a) && !DoesFree(a) ==> a.key >= 2 && a.key !in b)
    ensures AdderOk(s', Told(b, s.threads[w]), v) && RemoverOk(s', Told(b, s.threads[w]), v)
  {
    assert AdderOk(s, b, v) && RemoverOk(s, b, v);
    if v == w && Adding(s'.threads[w]) {
      forall i | 0 <= i < |s.table| && !s.table[i].Empty? ensures s.table[i].key != s.threads[w].action.key {
        assert CellOk(s, b, i);
      }
    }
  }
}
