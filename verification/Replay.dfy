/**
 The concurrent replayer of memory_replay (main.cpp, Threads.cpp, Thread.cpp, Pointers.cpp, Action.cpp)
 as interleaved atomic steps: one dispatcher that reads the log, workers that each run one action at a
 time, and a hash table of pointers that the workers share through compare-and-swap.
 */
module Replay {

  // `Alloc` stands for malloc, calloc and memalign, which do the same to the table.
  datatype Action =
    | Alloc(key: nat)
    | Realloc(key: nat, prior: nat)
    | Free(key: nat)
    | ThreadDone

  predicate DoesFree(a: Action) {
    (a.Realloc? && a.prior != 0) || (a.Free? && a.key != 0)
  }

  predicate Adds(a: Action) {
    a.Alloc? || a.Realloc?
  }

  function FreeKey(a: Action): nat
    requires DoesFree(a)
  {
    if a.Realloc? then a.prior else a.key
  }

  datatype Line = Line(tid: nat, action: Action)

  /* What a log means when its lines are run one after the other. */

  // The live keys with the line that allocated each, and the allocations released so far.
  datatype Ledger = Ledger(live: map<nat, nat>, freed: seq<nat>)

  function Released(l: Ledger, a: Action): Ledger
    requires DoesFree(a)
  {
    var k := FreeKey(a);
    Ledger(l.live - {k}, l.freed + if k in l.live then [l.live[k]] else [])
  }

  function After(l: Ledger, a: Action, line: nat): Ledger {
    var l' := if DoesFree(a) then Released(l, a) else l;
    if Adds(a) then l'.(live := l'.live[a.key := line]) else l'
  }

  function Play(log: seq<Line>, n: nat): Ledger
    requires n <= |log|
  {
    if n == 0 then Ledger(map[], []) else After(Play(log, n - 1), log[n - 1].action, n - 1)
  }

  // What one line of a log does, action by action.
  lemma PlayMeans(log: seq<Line>, n: nat)
    requires n < |log| && ValidLine(Play(log, n), log[n])
    ensures var l, l' := Play(log, n), Play(log, n + 1);
            match log[n].action
            case Alloc(k) => k !in l.live && l'.live == l.live[k := n] && l'.freed == l.freed
            case Realloc(k, p) =>
              if p == 0 then k !in l.live && l'.live == l.live[k := n] && l'.freed == l.freed
              else
                && p in l.live && (k == p || k !in l.live) && l'.live == (l.live - {p})[k := n]
                && l'.freed == l.freed + [l.live[p]]
            case Free(k) =>
              if k == 0 then l' == l
              else k in l.live && l'.live == l.live - {k} && l'.freed == l.freed + [l.live[k]]
            case ThreadDone => l' == l
  {
    hide Play;
    PlayNext(log, n);
  }

  lemma PlayNext(log: seq<Line>, n: nat)
    requires n < |log|
    ensures Play(log, n + 1) == After(Play(log, n), log[n].action, n)
  {
  }

  // The threads alive after the first n lines.
  function LiveTids(log: seq<Line>, n: nat): set<nat>
    requires n <= |log|
  {
    if n == 0 then {}
    else if log[n - 1].action.ThreadDone? then LiveTids(log, n - 1) - {log[n - 1].tid}
    else LiveTids(log, n - 1) + {log[n - 1].tid}
  }

  // The last line of a thread among the first n is line k, and does not end it.
  predicate GoesOn(log: seq<Line>, n: nat, tid: nat, k: nat)
    requires n <= |log|
  {
    k < n && log[k].tid == tid && !log[k].action.ThreadDone? && forall j :: k < j < n ==> log[j].tid != tid
  }

  // These are the threads that are alive.
  lemma {:induction false} LiveTidsMeans(log: seq<Line>, n: nat, tid: nat)
    requires n <= |log|
    ensures tid in LiveTids(log, n) <==> exists k: nat :: GoesOn(log, n, tid, k)
  {
    if n > 0 {
      LiveTidsMeans(log, n - 1, tid);
      if log[n - 1].tid == tid {
        assert !log[n - 1].action.ThreadDone? ==> GoesOn(log, n, tid, n - 1);
        assert forall k: nat :: GoesOn(log, n, tid, k) ==> k == n - 1;
      } else {
        forall k: nat ensures GoesOn(log, n, tid, k) <==> GoesOn(log, n - 1, tid, k) {
        }
        assert tid in LiveTids(log, n) <==> tid in LiveTids(log, n - 1);
        if tid in LiveTids(log, n - 1) {
          var k: nat :| GoesOn(log, n - 1, tid, k);
          assert GoesOn(log, n, tid, k);
        }
      }
    }
  }

  predicate ValidLine(l: Ledger, x: Line) {
    && x.tid > 0
    && (DoesFree(x.action) ==> FreeKey(x.action) in l.live)
    && (Adds(x.action) ==>
          && x.action.key >= 2
          && (x.action.key !in l.live || (DoesFree(x.action) && x.action.key == FreeKey(x.action))))
  }

  // A log that some program can have produced, with room for its allocations and its threads.
  predicate ValidLog(log: seq<Line>, slots: nat, threads: nat) {
    && slots > 0
    && (forall n :: 0 <= n < |log| ==> ValidLine(Play(log, n), log[n]))
    && (forall n :: 0 <= n <= |log| ==> |Play(log, n).live| <= slots)
    && (forall n :: 0 <= n < |log| ==> |LiveTids(log, n) + {log[n].tid}| <= threads)
  }

  /* The machine. */

  // A table slot. The program sees only RawKey: an owner, and the key of a claimed slot, are
  // recorded for the proof.
  datatype Cell =
    | Empty
    | Busy(key: nat, owner: nat)
    | Half(key: nat, owner: nat)
    | Full(key: nat, ptr: nat)

  function RawKey(c: Cell): nat {
    match c
    case Empty => 0
    case Busy(_, _) => 1
    case Half(k, _) => k
    case Full(k, _) => k
  }

  datatype Pc =
    | Waiting
    | Running
    | Seeking(slot: nat, left: nat)
    | Clearing(slot: nat)
    | Probing(slot: nat, tried: nat)
    | Claimed(slot: nat)
    | Stored(slot: nat)
    | Ending
    | Exited
    | Failed

  // An entry of the thread table; tid 0 is a free entry.
  datatype Thread = Thread(tid: nat, pending: bool, action: Action, line: nat, pc: Pc)

  datatype Dispatcher =
    | Fetch
    | AwaitReady(t: nat)
    | Quiesce(t: nat, i: nat)
    | Submit(t: nat)
    | AwaitFree(t: nat)
    | Join(t: nat)
    | FinalQuiesce(i: nat)
    | FinishAll(i: nat)
    | JoinAll(i: nat)
    | Stopped

  datatype State = State(n: nat, disp: Dispatcher, threads: seq<Thread>, table: seq<Cell>, freed: seq<nat>)

  // The slot j places after h, wrapping at the end of the table.
  function At(h: nat, j: nat, m: nat): (i: nat)
    requires h < m && j <= m
    ensures i < m
  {
    if h + j < m then h + j else h + j - m
  }

  function Home(key: nat, m: nat): (i: nat)
    requires m > 0
    ensures i < m
  {
    key % m
  }

  function Begin(a: Action, m: nat): Pc
    requires m > 0
  {
    if DoesFree(a) then Seeking(Home(FreeKey(a), m), m)
    else if Adds(a) then Probing(Home(a.key, m), 0)
    else Ending
  }

  predicate WorkerEnabled(s: State, w: nat) {
    w < |s.threads| && (if s.threads[w].pc.Waiting? then s.threads[w].pending
                        else !s.threads[w].pc.Exited? && !s.threads[w].pc.Failed?)
  }

  function SetPc(s: State, w: nat, pc: Pc): State
    requires w < |s.threads|
  {
    s.(threads := s.threads[w := s.threads[w].(pc := pc)])
  }

  function SetCell(s: State, i: nat, c: Cell): State
    requires i < |s.table|
  {
    s.(table := s.table[i := c])
  }

  // A slot index within the table and an action the step applies to.
  predicate PcFits(t: Thread, m: nat) {
    match t.pc
    case Seeking(i, left) => i < m && DoesFree(t.action)
    case Clearing(i) => i < m && DoesFree(t.action)
    case Probing(i, tried) => i < m && Adds(t.action)
    case Claimed(i) => i < m && Adds(t.action)
    case Stored(i) => i < m && Adds(t.action)
    case _ => true
  }

  // One step of worker w.
  function WorkerNext(s: State, w: nat): State
    requires |s.table| > 0 && WorkerEnabled(s, w) && PcFits(s.threads[w], |s.table|)
  {
    var t, m := s.threads[w], |s.table|;
    match t.pc
    case Waiting => SetPc(s, w, Running)
    case Running => SetPc(s, w, Begin(t.action, m))
    case Seeking(i, left) =>
      if left == 0 then SetPc(s, w, Failed)
      else if RawKey(s.table[i]) == FreeKey(t.action) then SetPc(s, w, Clearing(i))
      else SetPc(s, w, Seeking(At(i, 1, m), left - 1))
    case Clearing(i) =>
      var ptr := if s.table[i].Full? then [s.table[i].ptr] else [];
      SetPc(SetCell(s, i, Empty), w, if Adds(t.action) then Probing(Home(t.action.key, m), 0) else Ending)
      .(freed := s.freed + ptr)
    case Probing(i, tried) =>
      if tried == m then SetPc(s, w, Failed)
      else if RawKey(s.table[i]) == 0 then SetPc(SetCell(s, i, Busy(t.action.key, w)), w, Claimed(i))
      else SetPc(s, w, Probing(At(i, 1, m), tried + 1))
    case Claimed(i) => SetPc(SetCell(s, i, Half(t.action.key, w)), w, Stored(i))
    case Stored(i) => SetPc(SetCell(s, i, Full(t.action.key, t.line)), w, Ending)
    case Ending =>
      s.(threads := s.threads[w := t.(pending := false, pc := if t.action.ThreadDone? then Exited else Waiting)])
    case _ => s
  }

  predicate HasTid(s: State, tid: nat) {
    exists t :: 0 <= t < |s.threads| && s.threads[t].tid == tid
  }

  // Whether the dispatcher can move. At a new line `t` is the entry it finds or takes; a wait goes
  // on while the thread it waits for has its action pending.
  predicate DispEnabled(log: seq<Line>, s: State, t: nat) {
    match s.disp
    case Fetch =>
      s.n >= |log| ||
      (t < |s.threads| && (s.threads[t].tid == log[s.n].tid || (s.threads[t].tid == 0 && !HasTid(s, log[s.n].tid))))
    case AwaitReady(u) => u < |s.threads| && s.n < |log| && !s.threads[u].pending
    case Quiesce(u, i) => i < |s.threads| ==> s.threads[i].tid == 0 || !s.threads[i].pending
    case Submit(u) => u < |s.threads| && s.n < |log|
    case AwaitFree(u) => u < |s.threads| && !s.threads[u].pending
    case Join(u) => u < |s.threads| && s.threads[u].pc.Exited?
    case FinalQuiesce(i) => i < |s.threads| ==> s.threads[i].tid == 0 || !s.threads[i].pending
    case FinishAll(i) => true
    case JoinAll(i) => i < |s.threads| && s.threads[i].pc.Exited?
    case Stopped => false
  }

  function DispNext(log: seq<Line>, s: State, t: nat): State
    requires DispEnabled(log, s, t)
  {
    match s.disp
    case Fetch =>
      if s.n >= |log| then s.(disp := FinalQuiesce(0))
      else if s.threads[t].tid == 0 then
        s.(disp := AwaitReady(t), threads := s.threads[t := s.threads[t].(tid := log[s.n].tid, pc := Waiting)])
      else s.(disp := AwaitReady(t))
    case AwaitReady(u) =>
      s.(disp := if DoesFree(log[s.n].action) then Quiesce(u, 0) else Submit(u),
         threads := s.threads[u := s.threads[u].(action := log[s.n].action, line := s.n)])
    case Quiesce(u, i) =>
      if i < |s.threads| then s.(disp := Quiesce(u, i + 1)) else s.(disp := Submit(u))
    case Submit(u) =>
      var s' := s.(threads := s.threads[u := s.threads[u].(pending := true)]);
      if s.threads[u].action.ThreadDone? then s'.(disp := Join(u))
      else if DoesFree(s.threads[u].action) then s'.(disp := AwaitFree(u))
      else s'.(disp := Fetch, n := s.n + 1)
    case AwaitFree(u) => s.(disp := Fetch, n := s.n + 1)
    case Join(u) => s.(disp := Fetch, n := s.n + 1, threads := s.threads[u := s.threads[u].(tid := 0)])
    case FinalQuiesce(i) =>
      if i < |s.threads| then s.(disp := FinalQuiesce(i + 1)) else s.(disp := FinishAll(0))
    case FinishAll(i) =>
      if i >= |s.threads| then s.(disp := Stopped)
      else if s.threads[i].tid == 0 then s.(disp := FinishAll(i + 1))
      else s.(disp := JoinAll(i), threads := s.threads[i := s.threads[i].(action := ThreadDone, pending := true)])
    case JoinAll(i) => s.(disp := FinishAll(i + 1), threads := s.threads[i := s.threads[i].(tid := 0)])
    case Stopped => s
  }

  datatype Choice = Dispatch(t: nat) | Work(w: nat)

  predicate Enabled(log: seq<Line>, s: State, c: Choice) {
    match c
    case Dispatch(t) => DispEnabled(log, s, t)
    case Work(w) => |s.table| > 0 && WorkerEnabled(s, w) && PcFits(s.threads[w], |s.table|)
  }

  function Next(log: seq<Line>, s: State, c: Choice): State
    requires Enabled(log, s, c)
  {
    match c
    case Dispatch(t) => DispNext(log, s, t)
    case Work(w) => WorkerNext(s, w)
  }

  predicate Initial(s: State) {
    && s.n == 0 && s.disp.Fetch? && s.freed == []
    && (forall i :: 0 <= i < |s.table| ==> s.table[i].Empty?)
    && (forall w :: 0 <= w < |s.threads| ==> s.threads[w].tid == 0 && !s.threads[w].pending && s.threads[w].pc.Waiting?)
  }

  // Any interleaving of any length.
  ghost predicate IsRun(log: seq<Line>, run: seq<State>) {
    && |run| > 0 && Initial(run[0])
    && forall k :: 0 <= k < |run| - 1 ==> exists c :: Enabled(log, run[k], c) && Next(log, run[k], c) == run[k + 1]
  }
}
