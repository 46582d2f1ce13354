/**
 Safety over every interleaving of the replayer: what the dispatcher and the workers together keep,
 and that running in parallel comes to the same as running the log line by line.
 */
module ReplayProof {
  import opened Replay
  import opened ReplayTable

  // The lines whose action has been handed to a worker.
  function Submitted(s: State): nat {
    if s.disp.AwaitFree? || s.disp.Join? then s.n + 1 else s.n
  }

  predicate FreePending(s: State) {
    s.disp.AwaitFree? && s.disp.t < |s.threads| && Removing(s.threads[s.disp.t])
  }

  // What the table owes to the log: all the lines submitted, less a removal still to be done.
  function Due(log: seq<Line>, s: State): Ledger
    requires Submitted(s) <= |log|
  {
    Play(log, if FreePending(s) then s.n else Submitted(s))
  }

  predicate NonePending(s: State) {
    forall w :: 0 <= w < |s.threads| ==> !s.threads[w].pending
  }

  // Thread t has been given the current line.
  predicate Assigned(log: seq<Line>, s: State, t: nat) {
    && s.n < |log| && t < |s.threads| && s.threads[t].tid == log[s.n].tid
    && s.threads[t].action == log[s.n].action && s.threads[t].line == s.n
  }

  predicate DispOk(log: seq<Line>, s: State) {
    match s.disp
    case Fetch => s.n <= |log|
    case AwaitReady(t) => s.n < |log| && t < |s.threads| && s.threads[t].tid == log[s.n].tid
    case Quiesce(t, i) =>
      && Assigned(log, s, t) && !s.threads[t].pending && DoesFree(log[s.n].action) && i <= |s.threads|
      && forall j :: 0 <= j < i ==> !s.threads[j].pending
    case Submit(t) =>
      Assigned(log, s, t) && !s.threads[t].pending && (DoesFree(log[s.n].action) ==> NonePending(s))
    case AwaitFree(t) => Assigned(log, s, t) && DoesFree(log[s.n].action) && Alone(s, t)
    case Join(t) =>
      && Assigned(log, s, t) && log[s.n].action.ThreadDone?
      && (s.threads[t].pending || s.threads[t].pc.Exited?)
    case FinalQuiesce(i) =>
      s.n == |log| && i <= |s.threads| && forall j :: 0 <= j < i ==> !s.threads[j].pending
    case FinishAll(i) =>
      s.n == |log| && NonePending(s) && i <= |s.threads| && forall j :: 0 <= j < i ==> s.threads[j].tid == 0
    case JoinAll(i) =>
      && s.n == |log| && i < |s.threads| && s.threads[i].action.ThreadDone? && Alone(s, i)
      && (s.threads[i].pending || s.threads[i].pc.Exited?)
      && forall j :: 0 <= j < i ==> s.threads[j].tid == 0
    case Stopped => s.n == |log| && NonePending(s) && forall j :: 0 <= j < |s.threads| ==> s.threads[j].tid == 0
  }

  predicate ThreadOk(s: State, w: nat)
    requires w < |s.threads|
  {
    var t := s.threads[w];
    && PcFits(t, |s.table|) && !t.pc.Failed?
    && (!t.pending ==> t.pc.Waiting? || t.pc.Exited?)
    && (t.pc.Exited? ==> !t.pending && (t.tid == 0 || s.disp == Join(w) || s.disp == JoinAll(w)))
    && (t.pending ==> t.tid != 0)
    && (t.pending && DoesFree(t.action) ==> s.disp == AwaitFree(w))
    && (t.pending && t.action.ThreadDone? ==> s.disp == Join(w) || s.disp == JoinAll(w))
  }

  predicate MidLine(s: State) {
    s.disp.AwaitReady? || s.disp.Quiesce? || s.disp.Submit? || s.disp.AwaitFree? || s.disp.Join?
  }

  predicate TidsOk(log: seq<Line>, s: State)
    requires s.n <= |log|
  {
    && (forall v, w :: 0 <= v < w < |s.threads| && s.threads[v].tid != 0 ==> s.threads[v].tid != s.threads[w].tid)
    && (forall w :: 0 <= w < |s.threads| && s.threads[w].tid != 0 ==>
                      || s.threads[w].tid in LiveTids(log, s.n)
                      || (MidLine(s) && s.n < |log| && s.threads[w].tid == log[s.n].tid))
  }

  predicate TableDue(log: seq<Line>, s: State)
    requires Submitted(s) <= |log|
  {
    TableInv(s, Due(log, s).live) && s.freed == Due(log, s).freed
  }

  predicate Inv(log: seq<Line>, s: State) {
    && ValidLog(log, |s.table|, |s.threads|) && s.n <= |log| && Submitted(s) <= |log|
    && DispOk(log, s)
    && (forall w :: 0 <= w < |s.threads| ==> ThreadOk(s, w))
    && TidsOk(log, s)
    && TableDue(log, s)
  }

  lemma InitialInv(log: seq<Line>, s: State)
    requires Initial(s) && ValidLog(log, |s.table|, |s.threads|)
    ensures Inv(log, s)
  {
  }

  /* Worker steps. */

  // Every step but the removal itself works for the same table.
  lemma WorkerTable(s: State, b: map<nat, nat>, w: nat)
    requires TableInv(s, b) && |s.table| > 0 && |b| <= |s.table|
    requires WorkerEnabled(s, w) && PcFits(s.threads[w], |s.table|)
    requires s.threads[w].pending && !s.threads[w].pc.Clearing?
    ensures TableInv(WorkerNext(s, w), b) && !WorkerNext(s, w).threads[w].pc.Failed?
    ensures WorkerNext(s, w).freed == s.freed
  {
    assert AdderOk(s, b, w) && RemoverOk(s, b, w);
    match s.threads[w].pc
    case Waiting => ThreadStep(s, b, w, WorkerNext(s, w).threads[w]);
    case Running => BeginStep(s, b, w);
    case Seeking(i, left) => SeekStep(s, b, w);
    case Probing(i, tried) => ProbeStep(s, b, w);
    case Claimed(i) => StoreStep(s, b, w);
    case Stored(i) => StoreStep(s, b, w);
    case Ending => ThreadStep(s, b, w, WorkerNext(s, w).threads[w]);
  }

  // A worker touches no thread entry but its own, and of that only its progress.
  predicate WorkerMoved(s: State, s': State, w: nat) {
    && w < |s.threads| == |s'.threads| && |s'.table| == |s.table| && s'.disp == s.disp && s'.n == s.n
    && (forall v :: 0 <= v < |s.threads| && v != w ==> s'.threads[v] == s.threads[v])
    && var t, t' := s.threads[w], s'.threads[w];
    && t' == t.(pc := t'.pc, pending := t'.pending) && PcFits(t', |s.table|)
    && t'.pending == !t.pc.Ending?
    && (t'.pc.Exited? <==> t.pc.Ending? && t.action.ThreadDone?)
    && (t.pc.Ending? ==> t'.pc.Waiting? || t'.pc.Exited?)
    && (Removing(t') <==> Removing(t) && !t.pc.Clearing?)
  }

  lemma WorkerMoves(s: State, w: nat)
    requires |s.table| > 0 && WorkerEnabled(s, w) && PcFits(s.threads[w], |s.table|) && s.threads[w].pending
    requires !WorkerNext(s, w).threads[w].pc.Failed?
    ensures WorkerMoved(s, WorkerNext(s, w), w)
  {
  }

  lemma MovedThreads(s: State, s': State, w: nat)
    requires WorkerMoved(s, s', w) && s.threads[w].pending && !s'.threads[w].pc.Failed?
    requires forall v :: 0 <= v < |s.threads| ==> ThreadOk(s, v)
    ensures forall v :: 0 <= v < |s.threads| ==> ThreadOk(s', v)
  {
    assert ThreadOk(s, w);
    forall v | 0 <= v < |s.threads| ensures ThreadOk(s', v) {
      assert ThreadOk(s, v);
    }
  }

  lemma MovedDispatcher(log: seq<Line>, s: State, s': State, w: nat)
    requires WorkerMoved(s, s', w) && s.threads[w].pending && ThreadOk(s, w) && DispOk(log, s)
    ensures DispOk(log, s')
  {
  }

  lemma MovedTids(log: seq<Line>, s: State, s': State, w: nat)
    requires WorkerMoved(s, s', w) && s.n <= |log| && TidsOk(log, s)
    ensures TidsOk(log, s')
  {
    assert forall v :: 0 <= v < |s.threads| ==> s'.threads[v].tid == s.threads[v].tid;
  }

  // What the removing step takes out of the table is what the log releases at that line.
  lemma ClearDue(log: seq<Line>, s: State, w: nat)
    requires s.n < |log| && s.disp == AwaitFree(w) && Assigned(log, s, w) && ValidLine(Play(log, s.n), log[s.n])
    requires WorkerEnabled(s, w) && s.threads[w].pc.Clearing? && s.threads[w].pending && DoesFree(s.threads[w].action)
    requires |s.table| > 0 && PcFits(s.threads[w], |s.table|)
    requires TableInv(s, Play(log, s.n).live) && s.freed == Play(log, s.n).freed
    ensures var s' := WorkerNext(s, w);
            TableInv(s', Play(log, s.n + 1).live) && s'.freed == Play(log, s.n + 1).freed && !s'.threads[w].pc.Failed?
  {
    var l, a := Play(log, s.n), log[s.n].action;
    ClearStep(s, l.live, w);
    assert Play(log, s.n + 1) == After(l, a, s.n);
    assert After(l, a, s.n).live == Without(l.live, a, s.n);
  }

  lemma DueAfterClear(log: seq<Line>, s: State, s': State, w: nat)
    requires WorkerMoved(s, s', w) && s.disp == AwaitFree(w) && s.n < |log| && s.threads[w].pc.Clearing?
    requires TableInv(s', Play(log, s.n + 1).live) && s'.freed == Play(log, s.n + 1).freed
    ensures TableDue(log, s')
  {
    assert !FreePending(s');
  }

  lemma DueAfterOther(log: seq<Line>, s: State, s': State, w: nat)
    requires Submitted(s) <= |log| && WorkerMoved(s, s', w) && !s.threads[w].pc.Clearing?
    requires TableInv(s', Due(log, s).live) && s'.freed == Due(log, s).freed
    ensures TableDue(log, s')
  {
    assert FreePending(s') == FreePending(s);
  }

  lemma WorkerDue(log: seq<Line>, s: State, w: nat)
    requires s.n <= |log| && Submitted(s) <= |log| && ValidLog(log, |s.table|, |s.threads|)
    requires DispOk(log, s) && WorkerEnabled(s, w) && ThreadOk(s, w) && TableDue(log, s)
    ensures WorkerMoved(s, WorkerNext(s, w), w) && !WorkerNext(s, w).threads[w].pc.Failed?
    ensures TableDue(log, WorkerNext(s, w))
  {
    hide TableInv;
    if s.threads[w].pc.Clearing? {
      assert FreePending(s);
      ClearDue(log, s, w);
      WorkerMoves(s, w);
      DueAfterClear(log, s, WorkerNext(s, w), w);
    } else {
      WorkerTable(s, Due(log, s).live, w);
      WorkerMoves(s, w);
      DueAfterOther(log, s, WorkerNext(s, w), w);
    }
  }

  lemma WorkerKeeps(log: seq<Line>, s: State, w: nat)
    requires Inv(log, s) && WorkerEnabled(s, w)
    ensures PcFits(s.threads[w], |s.table|) && Inv(log, WorkerNext(s, w))
  {
    assert ThreadOk(s, w);
    WorkerDue(log, s, w);
    var s' := WorkerNext(s, w);
    MovedThreads(s, s', w);
    MovedDispatcher(log, s, s', w);
    MovedTids(log, s, s', w);
  }

  /* Dispatcher steps. */

  lemma LineValid(log: seq<Line>, slots: nat, threads: nat, n: nat)
    requires ValidLog(log, slots, threads) && n < |log|
    ensures ValidLine(Play(log, n), log[n])
  {
  }

  // Handing over the current action.
  lemma SubmitDue(log: seq<Line>, s: State, u: nat)
    requires s.disp == Submit(u) && Assigned(log, s, u) && !s.threads[u].pending && s.threads[u].pc.Waiting?
    requires ValidLine(Play(log, s.n), log[s.n]) && TableDue(log, s)
    requires DoesFree(log[s.n].action) ==> NonePending(s)
    requires forall v :: 0 <= v < |s.threads| ==> !Removing(s.threads[v])
    ensures var s' := DispNext(log, s, 0); Submitted(s') <= |log| && TableDue(log, s')
  {
    hide TableInv;
    var s', l, a := DispNext(log, s, 0), Play(log, s.n), log[s.n].action;
    assert Due(log, s) == l;
    WakeStep(s, s', l.live, u);
    PlayNext(log, s.n);
    assert FreePending(s') <==> DoesFree(a);
    assert Due(log, s').live == Told(l.live, s.threads[u]) && Due(log, s').freed == l.freed;
  }

  lemma NothingRemoving(log: seq<Line>, s: State)
    requires forall w :: 0 <= w < |s.threads| ==> ThreadOk(s, w)
    requires !s.disp.AwaitFree?
    ensures forall w :: 0 <= w < |s.threads| ==> !Removing(s.threads[w])
  {
    forall w | 0 <= w < |s.threads| ensures !Removing(s.threads[w]) {
      assert ThreadOk(s, w);
    }
  }

  // The steps that change no thread.
  lemma SameDue(log: seq<Line>, s: State, s': State)
    requires Submitted(s) <= |log| && TableDue(log, s) && s'.table == s.table && s'.threads == s.threads
    requires s'.freed == s.freed && Submitted(s') == Submitted(s) && !FreePending(s) && !FreePending(s')
    ensures TableDue(log, s')
  {
    SameView(s, s', Due(log, s).live);
  }

  // The steps that change an idle one.
  lemma IdleDue(log: seq<Line>, s: State, s': State, w: nat)
    requires Submitted(s) <= |log| && TableDue(log, s) && w < |s.threads| == |s'.threads| && s'.table == s.table
    requires s'.threads == s.threads[w := s'.threads[w]] && !s.threads[w].pending && !s'.threads[w].pending
    requires s'.freed == s.freed && Submitted(s') == Submitted(s) && !FreePending(s) && !FreePending(s')
    ensures TableDue(log, s')
  {
    IdleChange(s, s', Due(log, s).live, w);
  }

  // The last action of a thread the log leaves running.
  lemma FinishDue(log: seq<Line>, s: State, i: nat)
    requires s.n == |log| && s.disp == FinishAll(i) && i < |s.threads| && s.threads[i].tid != 0
    requires !s.threads[i].pending && s.threads[i].pc.Waiting? && TableDue(log, s)
    requires forall v :: 0 <= v < |s.threads| ==> !Removing(s.threads[v])
    ensures TableDue(log, DispNext(log, s, 0))
  {
    hide TableInv;
    var s0 := s.(threads := s.threads[i := s.threads[i].(action := ThreadDone)]);
    IdleChange(s, s0, Due(log, s).live, i);
    WakeStep(s0, DispNext(log, s, 0), Due(log, s).live, i);
  }

  lemma DispDue(log: seq<Line>, s: State, t: nat)
    requires Inv(log, s) && DispEnabled(log, s, t)
    ensures var s' := DispNext(log, s, t); Submitted(s') <= |log| && TableDue(log, s')
  {
    hide TableInv, TableDue, TidsOk, ValidLog, Play, PcFits;
    var s' := DispNext(log, s, t);
    match s.disp
    case Fetch =>
      if s.n < |log| && s.threads[t].tid == 0 {
        assert ThreadOk(s, t);
        IdleDue(log, s, s', t);
      } else {
        SameDue(log, s, s');
      }
    case AwaitReady(u) => IdleDue(log, s, s', u);
    case Quiesce(u, i) => SameDue(log, s, s');
    case Submit(u) =>
      assert ThreadOk(s, u);
      NothingRemoving(log, s);
      LineValid(log, |s.table|, |s.threads|, s.n);
      SubmitDue(log, s, u);
    case AwaitFree(u) => SameDue(log, s, s');
    case Join(u) =>
      assert ThreadOk(s, u);
      IdleDue(log, s, s', u);
    case FinalQuiesce(i) => SameDue(log, s, s');
    case FinishAll(i) =>
      if i < |s.threads| && s.threads[i].tid != 0 {
        assert ThreadOk(s, i);
        NothingRemoving(log, s);
        FinishDue(log, s, i);
      } else {
        SameDue(log, s, s');
      }
    case JoinAll(i) =>
      assert ThreadOk(s, i);
      IdleDue(log, s, s', i);
  }

  lemma DispThreads(log: seq<Line>, s: State, t: nat)
    requires s.n <= |log| && DispOk(log, s) && DispEnabled(log, s, t)
    requires forall w :: 0 <= w < |s.threads| ==> ThreadOk(s, w)
    requires s.n < |log| ==> log[s.n].tid > 0
    ensures forall w :: 0 <= w < |s.threads| ==> ThreadOk(DispNext(log, s, t), w)
  {
    var s' := DispNext(log, s, t);
    forall w | 0 <= w < |s.threads| ensures ThreadOk(s', w) {
      assert ThreadOk(s, w);
    }
  }

  lemma DispMoves(log: seq<Line>, s: State, t: nat)
    requires s.n <= |log| && DispOk(log, s) && DispEnabled(log, s, t)
    requires forall w :: 0 <= w < |s.threads| ==> ThreadOk(s, w)
    ensures DispOk(log, DispNext(log, s, t))
  {
    if s.disp.Fetch? && s.n < |log| {
      assert ThreadOk(s, t);
    }
    match s.disp
    case Quiesce(u, i) =>
      if i < |s.threads| {
        assert ThreadOk(s, i);
      } else {
        assert NonePending(s);
      }
    case FinalQuiesce(i) =>
      if i < |s.threads| {
        assert ThreadOk(s, i);
      }
    case JoinAll(i) => assert ThreadOk(s, i);
    case _ =>
  }

  lemma DispTids(log: seq<Line>, s: State, t: nat)
    requires s.n <= |log| && DispOk(log, s) && DispEnabled(log, s, t) && TidsOk(log, s)
    requires s.n < |log| ==> log[s.n].tid > 0
    ensures DispNext(log, s, t).n <= |log| && TidsOk(log, DispNext(log, s, t))
  {
    var s' := DispNext(log, s, t);
    if s.disp.Fetch? && s.n < |log| && s.threads[t].tid == 0 {
      assert forall v :: 0 <= v < |s.threads| ==> s.threads[v].tid != log[s.n].tid;
    }
  }

  lemma DispKeeps(log: seq<Line>, s: State, t: nat)
    requires Inv(log, s) && DispEnabled(log, s, t)
    ensures Inv(log, DispNext(log, s, t))
  {
    hide TableInv, TableDue;
    assert s.n < |log| ==> ValidLine(Play(log, s.n), log[s.n]);
    DispDue(log, s, t);
    DispThreads(log, s, t);
    DispMoves(log, s, t);
    DispTids(log, s, t);
  }

  /* Whole runs. */

  lemma StepKeeps(log: seq<Line>, s: State, c: Choice)
    requires Inv(log, s) && Enabled(log, s, c)
    ensures Inv(log, Next(log, s, c))
  {
    match c
    case Dispatch(t) => DispKeeps(log, s, t);
    case Work(w) => WorkerKeeps(log, s, w);
  }

  lemma {:induction false} RunKeeps(log: seq<Line>, run: seq<State>, k: nat)
    requires IsRun(log, run) && ValidLog(log, |run[0].table|, |run[0].threads|) && k < |run|
    ensures Inv(log, run[k])
  {
    if k == 0 {
      InitialInv(log, run[0]);
    } else {
      RunKeeps(log, run, k - 1);
      var c :| Enabled(log, run[k - 1], c) && Next(log, run[k - 1], c) == run[k];
      StepKeeps(log, run[k - 1], c);
    }
  }

  // A freeing action runs only while every other worker is idle.
  lemma FreeRunsAlone(log: seq<Line>, run: seq<State>, k: nat, w: nat)
    requires IsRun(log, run) && ValidLog(log, |run[0].table|, |run[0].threads|) && k < |run|
    requires w < |run[k].threads| && run[k].threads[w].pending && DoesFree(run[k].threads[w].action)
    ensures forall v :: 0 <= v < |run[k].threads| && v != w ==>
                          !run[k].threads[v].pending && (run[k].threads[v].pc.Waiting? || run[k].threads[v].pc.Exited?)
  {
    RunKeeps(log, run, k);
    assert ThreadOk(run[k], w);
    forall v | 0 <= v < |run[k].threads| && v != w
      ensures !run[k].threads[v].pending && (run[k].threads[v].pc.Waiting? || run[k].threads[v].pc.Exited?)
    {
      assert ThreadOk(run[k], v);
    }
  }

  lemma Exclusive(log: seq<Line>, s: State, v: nat, w: nat)
    requires Inv(log, s) && v < w < |s.threads|
    ensures var p, q := s.threads[v].pc, s.threads[w].pc;
            && !p.Failed? && !q.Failed?
            && ((p.Claimed? || p.Stored?) && (q.Claimed? || q.Stored?) ==> p.slot != q.slot)
  {
    hide DispOk, TidsOk, ValidLog, Due, Submitted;
    var b := Due(log, s).live;
    assert ThreadOk(s, v) && ThreadOk(s, w) && AdderOk(s, b, v) && AdderOk(s, b, w);
  }

  // No two workers ever hold the same slot, and no search fails.
  lemma SlotsExclusive(log: seq<Line>, run: seq<State>, k: nat, v: nat, w: nat)
    requires IsRun(log, run) && ValidLog(log, |run[0].table|, |run[0].threads|) && k < |run|
    requires v < w < |run[k].threads|
    ensures var p, q := run[k].threads[v].pc, run[k].threads[w].pc;
            && !p.Failed? && !q.Failed?
            && ((p.Claimed? || p.Stored?) && (q.Claimed? || q.Stored?) ==> p.slot != q.slot)
  {
    hide *;
    RunKeeps(log, run, k);
    Exclusive(log, run[k], v, w);
  }
}
