/**
 Every run of the replayer comes to an end, no run gets stuck before it, and what it ends with: the
 table of the sequential replay, and every allocation of the log released exactly once.
 */
module ReplayEnds {
  import opened Replay
  import Arith
  import opened ReplayTable
  import opened ReplayProof

  /* No reachable state is stuck. */

  lemma {:induction false} DistinctTids(threads: seq<Thread>, n: nat) returns (tids: set<nat>)
    requires n <= |threads|
    requires forall v, w :: 0 <= v < w < |threads| ==> threads[v].tid != threads[w].tid
    ensures |tids| == n
    ensures forall x :: x in tids <==> exists w :: 0 <= w < n && threads[w].tid == x
  {
    if n == 0 {
      tids := {};
    } else {
      var rest := DistinctTids(threads, n - 1);
      tids := rest + {threads[n - 1].tid};
    }
  }

  // Threads in every entry, none of them the wanted one, are more than the log may have.
  lemma ThreadsExceed(log: seq<Line>, s: State, tid: nat)
    requires s.n <= |log| && TidsOk(log, s) && s.disp.Fetch?
    requires forall w :: 0 <= w < |s.threads| ==> s.threads[w].tid != 0 && s.threads[w].tid != tid
    ensures |s.threads| < |LiveTids(log, s.n) + {tid}|
  {
    var tids := DistinctTids(s.threads, |s.threads|);
    assert tids + {tid} <= LiveTids(log, s.n) + {tid};
    Arith.SubsetSize(tids + {tid}, LiveTids(log, s.n) + {tid});
    assert tid !in tids;
  }

  // There is an entry for the thread of the current line, or a free one to create it in.
  lemma EntryForLine(log: seq<Line>, s: State) returns (t: nat)
    requires s.n < |log| && TidsOk(log, s) && s.disp.Fetch? && log[s.n].tid > 0
    requires |LiveTids(log, s.n) + {log[s.n].tid}| <= |s.threads|
    ensures t < |s.threads|
    ensures s.threads[t].tid == log[s.n].tid || (s.threads[t].tid == 0 && !HasTid(s, log[s.n].tid))
  {
    var tid := log[s.n].tid;
    if HasTid(s, tid) {
      t :| 0 <= t < |s.threads| && s.threads[t].tid == tid;
    } else if w :| 0 <= w < |s.threads| && s.threads[w].tid == 0 {
      t := w;
    } else {
      ThreadsExceed(log, s, tid);
      assert false;
    }
  }

  lemma NotStuck(log: seq<Line>, s: State)
    requires Inv(log, s) && !s.disp.Stopped?
    ensures exists c :: Enabled(log, s, c)
  {
    if w :| 0 <= w < |s.threads| && s.threads[w].pending {
      assert ThreadOk(s, w);
      assert Enabled(log, s, Work(w));
    } else {
      var t := 0;
      if s.disp.Fetch? && s.n < |log| {
        assert ValidLine(Play(log, s.n), log[s.n]);
        t := EntryForLine(log, s);
      }
      assert Enabled(log, s, Dispatch(t));
    }
  }

  /* Every run is finite. */

  function Budget(m: nat): nat {
    2 * m + 12
  }

  // Steps a thread has left in its current action, at most.
  function Effort(t: Thread, m: nat): nat {
    if !t.pending then 0
    else
      match t.pc
      case Waiting => 2 * m + 10
      case Running => 2 * m + 9
      case Seeking(i, left) => m + 7 + left
      case Clearing(i) => m + 6
      case Probing(i, tried) => if tried <= m then m - tried + 4 else 4
      case Claimed(i) => 3
      case Stored(i) => 2
      case Ending => 1
      case _ => 0
  }

  function Efforts(threads: seq<Thread>, m: nat): nat {
    if |threads| == 0 then 0 else Effort(threads[0], m) + Efforts(threads[1..], m)
  }

  lemma {:induction false} EffortsUpdate(threads: seq<Thread>, m: nat, w: nat, t: Thread)
    requires w < |threads|
    ensures Efforts(threads[w := t], m) == Efforts(threads, m) - Effort(threads[w], m) + Effort(t, m)
  {
    if w == 0 {
      assert threads[w := t][1..] == threads[1..];
    } else {
      assert threads[w := t][1..] == threads[1..][w - 1 := t];
      EffortsUpdate(threads[1..], m, w - 1, t);
    }
  }

  function ForLine(s: State): nat {
    Budget(|s.table|) + |s.threads| + 8
  }

  // Left once the log is read: one final action for each entry not yet passed.
  function ForFinish(s: State, i: nat): int {
    1 + (|s.threads| - i) * (Budget(|s.table|) + 3)
  }

  function ForRest(log: seq<Line>, s: State): int {
    (|log| - s.n) * ForLine(s) + ForFinish(s, 0) + |s.threads| + 5
  }

  // Steps the dispatcher has left.
  function Ahead(log: seq<Line>, s: State): int {
    match s.disp
    case Fetch => ForRest(log, s)
    case AwaitReady(t) => ForRest(log, s) - 1
    case Quiesce(t, i) => ForRest(log, s) - 2 - i
    case Submit(t) => ForRest(log, s) - |s.threads| - 4
    case AwaitFree(t) => ForRest(log, s) - |s.threads| - 5 - Budget(|s.table|)
    case Join(t) => ForRest(log, s) - |s.threads| - 5 - Budget(|s.table|)
    case FinalQuiesce(i) => ForFinish(s, 0) + |s.threads| + 4 - i
    case FinishAll(i) => ForFinish(s, i)
    case JoinAll(i) => ForFinish(s, i) - Budget(|s.table|) - 1
    case Stopped => 0
  }

  function Measure(log: seq<Line>, s: State): int {
    Ahead(log, s) + Efforts(s.threads, |s.table|)
  }

  lemma RestShrinks(log: seq<Line>, s: State, s': State)
    requires s.n <= s'.n <= s.n + 1 && |s'.table| == |s.table| && |s'.threads| == |s.threads|
    ensures ForRest(log, s') == if s'.n == s.n then ForRest(log, s) else ForRest(log, s) - ForLine(s)
  {
    if s'.n != s.n {
      assert (|log| - s.n - 1) * ForLine(s) == (|log| - s.n) * ForLine(s) - ForLine(s);
    }
  }

  lemma FinishShrinks(s: State, s': State, i: nat)
    requires |s'.table| == |s.table| && |s'.threads| == |s.threads|
    ensures ForFinish(s', i) == ForFinish(s, i) && ForFinish(s', i + 1) == ForFinish(s, i) - Budget(|s.table|) - 3
  {
    var l := Budget(|s.table|) + 3;
    assert (|s.threads| - i - 1) * l == (|s.threads| - i) * l - l;
  }

  lemma Product(n: nat, l: nat)
    ensures n * l >= 0
  {
  }

  lemma RestEnough(log: seq<Line>, s: State, i: nat)
    requires s.n <= |log| && i <= |s.threads|
    ensures ForFinish(s, i) >= 1
    ensures ForRest(log, s) >= ForFinish(s, 0) + |s.threads| + 5
    ensures s.n < |log| ==> ForRest(log, s) >= ForLine(s) + ForFinish(s, 0) + |s.threads| + 5
    ensures i < |s.threads| ==> ForFinish(s, i) >= Budget(|s.table|) + 4
  {
    Product(|log| - s.n, ForLine(s));
    Product(|s.threads| - i, Budget(|s.table|) + 3);
    if s.n < |log| {
      RestShrinks(log, s, s.(n := s.n + 1));
      Product(|log| - s.n - 1, ForLine(s));
    }
    if i < |s.threads| {
      FinishShrinks(s, s, i);
      Product(|s.threads| - i - 1, Budget(|s.table|) + 3);
    }
  }

  lemma MeasureNonNegative(log: seq<Line>, s: State)
    requires s.n <= |log| && DispOk(log, s)
    ensures Measure(log, s) >= 0
  {
    RestEnough(log, s, 0);
    match s.disp
    case FinishAll(i) => RestEnough(log, s, i);
    case JoinAll(i) => RestEnough(log, s, i);
    case _ =>
  }

  // A worker's own step uses up some of its effort.
  lemma EffortDrops(s: State, w: nat)
    requires |s.table| > 0 && WorkerEnabled(s, w) && PcFits(s.threads[w], |s.table|) && s.threads[w].pending
    requires s.threads[w].pc.Probing? ==> s.threads[w].pc.tried <= |s.table|
    ensures |WorkerNext(s, w).threads| == |s.threads|
    ensures Effort(WorkerNext(s, w).threads[w], |s.table|) < Effort(s.threads[w], |s.table|)
    ensures WorkerNext(s, w).threads == s.threads[w := WorkerNext(s, w).threads[w]]
    ensures WorkerNext(s, w).n == s.n && WorkerNext(s, w).disp == s.disp && |WorkerNext(s, w).table| == |s.table|
  {
  }

  lemma WorkerGoesOn(log: seq<Line>, s: State, w: nat)
    requires |s.table| > 0 && WorkerEnabled(s, w) && PcFits(s.threads[w], |s.table|) && s.threads[w].pending
    requires s.threads[w].pc.Probing? ==> s.threads[w].pc.tried <= |s.table|
    ensures Measure(log, WorkerNext(s, w)) < Measure(log, s)
  {
    EffortDrops(s, w);
    var s' := WorkerNext(s, w);
    EffortsUpdate(s.threads, |s.table|, w, s'.threads[w]);
    assert Ahead(log, s') == Ahead(log, s);
  }

  // What the dispatcher does to the threads, in effort: nothing, or one new action.
  lemma EffortGiven(log: seq<Line>, s: State, t: nat)
    requires s.n <= |log| && DispOk(log, s) && DispEnabled(log, s, t)
    requires forall w :: 0 <= w < |s.threads| ==> ThreadOk(s, w)
    ensures var s' := DispNext(log, s, t);
            && |s'.table| == |s.table| && |s'.threads| == |s.threads|
            && Efforts(s'.threads, |s.table|) <=
               Efforts(s.threads, |s.table|) + if s.disp.Submit? || s'.disp.JoinAll? then Budget(|s.table|) - 2 else 0
  {
    var s', m := DispNext(log, s, t), |s.table|;
    match s.disp
    case Fetch =>
      if s.n < |log| {
        assert ThreadOk(s, t);
        EffortsUpdate(s.threads, m, t, s'.threads[t]);
      }
    case AwaitReady(u) => EffortsUpdate(s.threads, m, u, s'.threads[u]);
    case Submit(u) =>
      assert ThreadOk(s, u);
      EffortsUpdate(s.threads, m, u, s'.threads[u]);
    case Join(u) => EffortsUpdate(s.threads, m, u, s'.threads[u]);
    case FinishAll(i) =>
      if i < |s.threads| {
        assert ThreadOk(s, i);
        EffortsUpdate(s.threads, m, i, s'.threads[i]);
      }
    case JoinAll(i) => EffortsUpdate(s.threads, m, i, s'.threads[i]);
    case _ =>
  }

  lemma DispGoesOn(log: seq<Line>, s: State, t: nat)
    requires s.n <= |log| && DispOk(log, s) && DispEnabled(log, s, t)
    requires forall w :: 0 <= w < |s.threads| ==> ThreadOk(s, w)
    ensures Measure(log, DispNext(log, s, t)) < Measure(log, s)
  {
    hide Efforts, ForRest, ForFinish, ThreadOk;
    var s' := DispNext(log, s, t);
    EffortGiven(log, s, t);
    RestShrinks(log, s, s');
    RestEnough(log, s, 0);
    FinishShrinks(s, s', 0);
    match s.disp
    case FinishAll(i) =>
      RestEnough(log, s, i);
      FinishShrinks(s, s', i);
    case JoinAll(i) => FinishShrinks(s, s', i);
    case _ =>
  }

  lemma StepGoesOn(log: seq<Line>, s: State, c: Choice)
    requires Inv(log, s) && Enabled(log, s, c)
    ensures 0 <= Measure(log, s) && Measure(log, Next(log, s, c)) < Measure(log, s)
  {
    MeasureNonNegative(log, s);
    match c
    case Dispatch(t) => DispGoesOn(log, s, t);
    case Work(w) =>
      assert ThreadOk(s, w) && AdderOk(s, Due(log, s).live, w);
      WorkerGoesOn(log, s, w);
  }

  // The number of steps of any run is bounded by a number known when it starts.
  lemma {:induction false} RunsAreFinite(log: seq<Line>, run: seq<State>, k: nat)
    requires IsRun(log, run) && ValidLog(log, |run[0].table|, |run[0].threads|) && k < |run|
    ensures 0 <= Measure(log, run[k]) && k <= Measure(log, run[0]) - Measure(log, run[k])
  {
    hide IsRun, ValidLog, Inv, Enabled, Next, Measure;
    RunKeeps(log, run, k);
    if k > 0 {
      RunsAreFinite(log, run, k - 1);
      RunKeeps(log, run, k - 1);
      var c := StepOf(log, run, k - 1);
      StepGoesOn(log, run[k - 1], c);
    }
    InvMeasure(log, run[k]);
  }

  lemma StepOf(log: seq<Line>, run: seq<State>, k: nat) returns (c: Choice)
    requires IsRun(log, run) && k + 1 < |run|
    ensures Enabled(log, run[k], c) && Next(log, run[k], c) == run[k + 1]
  {
    c :| Enabled(log, run[k], c) && Next(log, run[k], c) == run[k + 1];
  }

  lemma InvMeasure(log: seq<Line>, s: State)
    requires Inv(log, s)
    ensures Measure(log, s) >= 0
  {
    MeasureNonNegative(log, s);
  }

  /* What a run ends with. */

  // The table holds exactly the given keys, once each, with the given pointers.
  predicate TableIs(table: seq<Cell>, m: map<nat, nat>) {
    && (forall i :: 0 <= i < |table| ==>
                      table[i].Empty? || (table[i].Full? && table[i].key in m && m[table[i].key] == table[i].ptr))
    && OneCellPerKey(table)
    && forall k :: k in m ==> exists i :: 0 <= i < |table| && table[i].Full? && table[i].key == k
  }

  lemma QuiescedTable(log: seq<Line>, s: State)
    requires Inv(log, s) && NonePending(s)
    ensures TableIs(s.table, Play(log, Submitted(s)).live) && s.freed == Play(log, Submitted(s)).freed
  {
    var b := Due(log, s).live;
    assert !FreePending(s);
    forall i | 0 <= i < |s.table|
      ensures s.table[i].Empty? || (s.table[i].Full? && s.table[i].key in b && b[s.table[i].key] == s.table[i].ptr)
    {
      assert CellOk(s, b, i);
    }
    forall k | k in b ensures exists i :: 0 <= i < |s.table| && s.table[i].Full? && s.table[i].key == k {
      assert !OnItsWay(s, k);
      assert InTable(s, k);
    }
  }

  // Whenever no action is pending the shared table is the one the sequential replay would have, and
  // the allocations released are those it would have released, in the same order.
  lemma ParallelIsSequential(log: seq<Line>, run: seq<State>, k: nat)
    requires IsRun(log, run) && ValidLog(log, |run[0].table|, |run[0].threads|)
    requires k < |run| && NonePending(run[k])
    ensures var s := run[k];
            && Submitted(s) <= |log| && TableIs(s.table, Play(log, Submitted(s)).live)
            && s.freed == Play(log, Submitted(s)).freed
  {
    RunKeeps(log, run, k);
    QuiescedTable(log, run[k]);
  }

  ghost predicate Halted(log: seq<Line>, s: State) {
    forall c :: !Enabled(log, s, c)
  }

  // A run that cannot go on has replayed the whole log and joined every thread.
  lemma RunsReachTheEnd(log: seq<Line>, run: seq<State>)
    requires IsRun(log, run) && ValidLog(log, |run[0].table|, |run[0].threads|)
    requires Halted(log, run[|run| - 1])
    ensures var s := run[|run| - 1];
            s.disp.Stopped? && NonePending(s) && Submitted(s) == |log|
  {
    var s := run[|run| - 1];
    RunKeeps(log, run, |run| - 1);
    if !s.disp.Stopped? {
      NotStuck(log, s);
    }
  }

  /* Every allocation is released exactly once. */

  // What is released at the end: the pointer of every slot in use, in slot order.
  function FreeAll(table: seq<Cell>): seq<nat> {
    if |table| == 0 then []
    else FreeAll(table[..|table| - 1]) + if table[|table| - 1].Full? then [table[|table| - 1].ptr] else []
  }

  predicate NoRepeats(xs: seq<nat>) {
    forall i, j :: 0 <= i < j < |xs| ==> xs[i] != xs[j]
  }

  ghost predicate Injective(m: map<nat, nat>) {
    forall j, k :: j in m && k in m && j != k ==> m[j] != m[k]
  }

  predicate IsAlloc(log: seq<Line>, n: nat, x: nat) {
    x < n && x < |log| && Adds(log[x].action)
  }

  function Allocs(log: seq<Line>, n: nat): set<nat> {
    set x | 0 <= x < n && IsAlloc(log, n, x)
  }

  // Every allocation is either live under one key or released once.
  ghost predicate Conserved(l: Ledger, allocs: set<nat>) {
    && Injective(l.live) && NoRepeats(l.freed)
    && (forall k :: k in l.live ==> l.live[k] in allocs && l.live[k] !in l.freed)
    && (forall x :: x in l.freed ==> x in allocs)
    && (forall x :: x in allocs ==> x in l.freed || x in l.live.Values)
  }

  lemma ReleaseConserves(l: Ledger, a: Action, allocs: set<nat>)
    requires Conserved(l, allocs) && DoesFree(a) && FreeKey(a) in l.live
    ensures Conserved(Released(l, a), allocs)
  {
    var l', k := Released(l, a), FreeKey(a);
    assert l'.freed == l.freed + [l.live[k]];
    forall x | x in allocs ensures x in l'.freed || x in l'.live.Values {
      if x !in l.freed && x != l.live[k] {
        var j :| j in l.live && l.live[j] == x;
        assert j in l'.live;
      } else if x == l.live[k] {
        assert l'.freed[|l.freed|] == x;
      }
    }
  }

  lemma AllocConserves(l: Ledger, key: nat, line: nat, allocs: set<nat>)
    requires Conserved(l, allocs) && key !in l.live && line !in allocs
    ensures Conserved(l.(live := l.live[key := line]), allocs + {line})
  {
    var l' := l.(live := l.live[key := line]);
    forall x | x in allocs + {line} ensures x in l'.freed || x in l'.live.Values {
      if x == line {
        assert key in l'.live && l'.live[key] == x;
      } else if x !in l.freed {
        var j :| j in l.live && l.live[j] == x;
        assert j in l'.live;
      }
    }
  }

  lemma AfterConserves(l: Ledger, x: Line, line: nat, allocs: set<nat>)
    requires Conserved(l, allocs) && ValidLine(l, x) && line !in allocs
    ensures Conserved(After(l, x.action, line), if Adds(x.action) then allocs + {line} else allocs)
  {
    hide Conserved;
    var a := x.action;
    var l' := if DoesFree(a) then Released(l, a) else l;
    if DoesFree(a) {
      ReleaseConserves(l, a, allocs);
    }
    if Adds(a) {
      AllocConserves(l', a.key, line, allocs);
    }
  }

  lemma NothingPlayed(log: seq<Line>)
    ensures Conserved(Play(log, 0), Allocs(log, 0))
  {
  }

  lemma {:induction false} PlayConserves(log: seq<Line>, slots: nat, threads: nat, n: nat)
    requires ValidLog(log, slots, threads) && n <= |log|
    ensures Conserved(Play(log, n), Allocs(log, n))
  {
    hide *;
    if n == 0 {
      NothingPlayed(log);
    } else {
      PlayConserves(log, slots, threads, n - 1);
      PlayNext(log, n - 1);
      LineValid(log, slots, threads, n - 1);
      AllocsNext(log, n - 1);
      AfterConserves(Play(log, n - 1), log[n - 1], n - 1, Allocs(log, n - 1));
    }
  }

  lemma AllocsNext(log: seq<Line>, n: nat)
    requires n < |log|
    ensures n !in Allocs(log, n)
    ensures Allocs(log, n + 1) == if Adds(log[n].action) then Allocs(log, n) + {n} else Allocs(log, n)
  {
  }

  lemma {:induction false} FreeAllHolds(table: seq<Cell>, m: map<nat, nat>)
    requires OneCellPerKey(table) && Injective(m)
    requires forall i :: 0 <= i < |table| && table[i].Full? ==> table[i].key in m && m[table[i].key] == table[i].ptr
    ensures NoRepeats(FreeAll(table))
    ensures forall x :: x in FreeAll(table) <==> exists i :: 0 <= i < |table| && table[i].Full? && table[i].ptr == x
  {
    if |table| > 0 {
      var n := |table| - 1;
      var rest := table[..n];
      FreeAllHolds(rest, m);
      if table[n].Full? {
        var xs := FreeAll(rest);
        forall i | 0 <= i < |xs| ensures xs[i] != table[n].ptr {
          assert xs[i] in xs;
          var j :| 0 <= j < |rest| && rest[j].Full? && rest[j].ptr == xs[i];
        }
        assert FreeAll(table) == xs + [table[n].ptr];
      }
    }
  }

  // Over a whole run, the allocations released by the workers and the ones released at the end are
  // together all the allocations of the log, each of them once.
  lemma AllReleasedOnce(log: seq<Line>, run: seq<State>)
    requires IsRun(log, run) && ValidLog(log, |run[0].table|, |run[0].threads|)
    requires Halted(log, run[|run| - 1])
    ensures var all := run[|run| - 1].freed + FreeAll(run[|run| - 1].table);
            NoRepeats(all) && forall x :: x in all <==> IsAlloc(log, |log|, x)
  {
    RunsReachTheEnd(log, run);
    ParallelIsSequential(log, run, |run| - 1);
    var s, l := run[|run| - 1], Play(log, |log|);
    PlayConserves(log, |run[0].table|, |run[0].threads|, |log|);
    FreeAllHolds(s.table, l.live);
    ReleasedTogether(s.table, l, Allocs(log, |log|));
  }

  lemma ReleasedTogether(table: seq<Cell>, l: Ledger, allocs: set<nat>)
    requires TableIs(table, l.live) && Conserved(l, allocs) && NoRepeats(FreeAll(table))
    requires forall x :: x in FreeAll(table) <==> exists i :: 0 <= i < |table| && table[i].Full? && table[i].ptr == x
    ensures NoRepeats(l.freed + FreeAll(table))
    ensures forall x :: x in l.freed + FreeAll(table) <==> x in allocs
  {
    var rest := FreeAll(table);
    forall x | x in rest ensures x !in l.freed && x in allocs {
      var i :| 0 <= i < |table| && table[i].Full? && table[i].ptr == x;
      assert l.live[table[i].key] == x;
    }
    forall x | x in allocs && x !in l.freed ensures x in rest {
      var k :| k in l.live && l.live[k] == x;
      var i :| 0 <= i < |table| && table[i].Full? && table[i].key == k;
      assert table[i].ptr == x;
    }
    var all := l.freed + rest;
    forall i, j | 0 <= i < j < |all| ensures all[i] != all[j] {
      if i < |l.freed| <= j {
        assert all[i] in l.freed && all[j] in rest;
      }
    }
  }
}
