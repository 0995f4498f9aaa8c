/**
 What every interleaving of the import keeps: each table gets exactly one outcome,
 the exit code follows the refused tables, every thread is joined once, nobody is
 stuck, and the work is bounded.
 */
module ImportTheorems {
  import opened ImportThreads

  // ----- the tables ------------------------------------------------------------------------------------

  /** Nothing is decided yet for the worker's table. */
  predicate Undecided(p: WorkerPc) {
    BeforeTable(p) || p.Write?
  }

  /** The worker knows that its table was refused and has not seen to the exit code. */
  predicate Reporting(p: WorkerPc) {
    p.WriteFailed? || p.CheckCode? || p.StoreCode?
  }

  predicate AnyRefused(s: State) {
    exists t | t in s.outcome :: s.outcome[t].Refused?
  }

  ghost predicate HasWorker(s: State, t: nat) {
    exists w | 0 <= w < |s.workers| :: s.workers[w].table == t
  }

  ghost predicate WorkerOk(s: State, w: nat)
    requires w < |s.workers|
  {
    var x := s.workers[w];
    && x.table < s.next
    && (x.table in s.outcome <==> !Undecided(x.pc))
    && (Reporting(x.pc) ==> s.outcome[x.table].Refused?)
    && (!Undecided(x.pc) && !Reporting(x.pc) && s.outcome[x.table].Refused? ==> s.exitcode != 0)
    && (x.pc.ConnectFailed? || x.pc.CharsetFailed? ==> s.noSession)
    && (x.pc.ConnectFailed? ==> !s.ignoreErrors)
  }

  ghost predicate TableOk(s: State, t: nat) {
    && (t in s.outcome ==> t < s.next && (s.outcome[t].Refused? ==> HasWorker(s, t)))
    && (t < s.next && t !in s.outcome ==> HasWorker(s, t))
  }

  ghost predicate Increasing(ws: seq<Worker>) {
    forall v, w | 0 <= v < w < |ws| :: ws[v].table < ws[w].table
  }

  /** Every table that was begun has an outcome or a worker that will bring one. */
  ghost predicate Accounts(s: State) {
    && (forall w | 0 <= w < |s.workers| :: WorkerOk(s, w))
    && (forall t: nat :: TableOk(s, t))
    && Increasing(s.workers)
    && (s.exitcode == 0 || (s.exitcode == 1 && AnyRefused(s)))
  }

  /** The main thread's own bookkeeping; the handles fit the array that has one place per table. */
  ghost predicate Tidy(c: Config, s: State) {
    && |s.workers| <= s.next <= c.tables
    && (InLoop(s.main) && !s.main.Head? ==> s.next < c.tables)
    && (!InLoop(s.main) ==> s.next == c.tables)
    && |s.joins| <= |s.workers|
    && (forall k | 0 <= k < |s.joins| :: s.joins[k] == k)
    && (s.joins != [] ==> s.main.Join?)
    && (s.end.Returned? ==> s.main.Join? && |s.joins| == |s.workers| && s.end.code == s.exitcode)
    && (s.end.Died? ==> s.end.code == 1 && (AnyRefused(s) || s.noSession))
  }

  ghost predicate Sound(c: Config, s: State) {
    Safe(c, s) && Accounts(s) && Tidy(c, s)
  }

  // ----- the main thread keeps it ------------------------------------------------------------------------

  lemma LoopTidy(c: Config, s: State, ok: bool)
    requires Tidy(c, s) && s.end.Running? && InLoop(s.main)
    ensures Tidy(c, LoopNext(c, s, ok))
  {
  }

  lemma FinalTidy(c: Config, s: State)
    requires Tidy(c, s) && s.end.Running? && !InLoop(s.main)
    ensures Tidy(c, FinalNext(s))
  {
  }

  lemma CreateAccounts(c: Config, s: State)
    requires Sound(c, s) && MainEnabled(s) && s.main.Create?
    ensures Accounts(LoopNext(c, s, true))
  {
    var n := LoopNext(c, s, true);
    forall w | 0 <= w < |n.workers| ensures WorkerOk(n, w) {
      if w < |s.workers| { assert WorkerOk(s, w); } else { assert TableOk(s, s.next); }
    }
    forall t: nat ensures TableOk(n, t) {
      assert TableOk(s, t);
      KeepsWorker(s, n, t);
      assert n.workers[|s.workers|].table == s.next;
    }
    forall w | 0 <= w < |s.workers| ensures s.workers[w].table < s.next { assert WorkerOk(s, w); }
    assert AnyRefused(s) ==> AnyRefused(n);
  }

  lemma KeepsWorker(s: State, n: State, t: nat)
    requires |s.workers| <= |n.workers| && forall w | 0 <= w < |s.workers| :: n.workers[w].table == s.workers[w].table
    ensures HasWorker(s, t) ==> HasWorker(n, t)
  {
    if HasWorker(s, t) {
      var w :| 0 <= w < |s.workers| && s.workers[w].table == t;
      assert n.workers[w].table == t;
    }
  }

  lemma UndoAccounts(c: Config, s: State)
    requires Sound(c, s) && s.main.UndoUnlock?
    ensures Accounts(LoopNext(c, s, true))
  {
    var n := LoopNext(c, s, true);
    assert TableOk(s, s.next);
    forall w | 0 <= w < |n.workers| ensures WorkerOk(n, w) { assert WorkerOk(s, w); }
    forall t: nat ensures TableOk(n, t) {
      assert TableOk(s, t);
      KeepsWorker(s, n, t);
    }
    RefusedStays(s, n);
  }

  lemma RefusedStays(s: State, n: State)
    requires forall t | t in s.outcome && s.outcome[t].Refused? :: t in n.outcome && n.outcome[t].Refused?
    ensures AnyRefused(s) ==> AnyRefused(n)
  {
  }

  /** The other steps of the main thread leave the tables alone. */
  lemma SameAccounts(s: State, n: State)
    requires Accounts(s) && SameTables(s, n)
    ensures Accounts(n)
  {
    forall w | 0 <= w < |n.workers| ensures WorkerOk(n, w) { assert WorkerOk(s, w); }
    forall t: nat ensures TableOk(n, t) {
      assert TableOk(s, t);
      KeepsWorker(s, n, t);
    }
    RefusedStays(s, n);
  }

  ghost predicate SameTables(s: State, n: State) {
    && n.workers == s.workers && n.outcome == s.outcome && n.next == s.next
    && n.exitcode == s.exitcode && n.noSession == s.noSession && n.ignoreErrors == s.ignoreErrors
  }

  lemma LoopSameTables(c: Config, s: State, ok: bool)
    requires InLoop(s.main) && !(s.main.Create? && ok) && !s.main.UndoUnlock?
    ensures SameTables(s, LoopNext(c, s, ok))
  {
  }

  lemma FinalSameTables(s: State)
    ensures SameTables(s, FinalNext(s))
  {
  }

  lemma MainAccounts(c: Config, s: State, ok: bool)
    requires Sound(c, s) && MainEnabled(s)
    ensures Accounts(MainNext(c, s, ok))
  {
    hide Safe, Tidy, Accounts;
    if s.main.Create? && ok {
      CreateAccounts(c, s);
    } else if s.main.UndoUnlock? {
      UndoAccounts(c, s);
    } else {
      if InLoop(s.main) { LoopSameTables(c, s, ok); } else { FinalSameTables(s); }
      SameAccounts(s, MainNext(c, s, ok));
    }
  }

  // ----- the workers keep it -------------------------------------------------------------------------------

  /** What the step does for the worker's own table, and that it leaves all others alone. */
  ghost predicate Reports(s: State, w: nat, n: State)
    requires w < |s.workers|
  {
    && |n.workers| == |s.workers| && n.next == s.next
    && (forall t | t != s.workers[w].table :: (t in n.outcome <==> t in s.outcome) && (t in s.outcome ==> n.outcome[t] == s.outcome[t]))
    && (s.workers[w].table in s.outcome ==> n.outcome == s.outcome)
    && (n.exitcode != s.exitcode ==> s.workers[w].pc.StoreCode? && n.exitcode == 1)
    && (s.noSession ==> n.noSession) && (n.ignoreErrors ==> s.ignoreErrors)
  }

  predicate Starting(p: WorkerPc) {
    p.Begin? || p.InitLock? || p.InitHeld?
  }

  lemma StartReports(s: State, w: nat, ok: bool)
    requires w < |s.workers| && WorkerOk(s, w) && Starting(s.workers[w].pc)
    ensures Reports(s, w, SessionNext(s, w, ok)) && WorkerOk(SessionNext(s, w, ok), w)
  {
  }

  lemma SessionReports(s: State, w: nat, ok: bool)
    requires w < |s.workers| && WorkerOk(s, w) && BeforeTable(s.workers[w].pc) && !Starting(s.workers[w].pc)
    ensures Reports(s, w, SessionNext(s, w, ok)) && WorkerOk(SessionNext(s, w, ok), w)
  {
  }

  lemma TableReports(s: State, w: nat, ok: bool)
    requires w < |s.workers| && WorkerOk(s, w) && AtTable(s.workers[w].pc)
    ensures Reports(s, w, TableNext(s, w, ok)) && WorkerOk(TableNext(s, w, ok), w)
  {
  }

  lemma LeaveReports(s: State, w: nat)
    requires w < |s.workers| && WorkerOk(s, w) && (s.workers[w].pc.Leave? || s.workers[w].pc.Decrement?)
    ensures Reports(s, w, LeaveNext(s, w)) && WorkerOk(LeaveNext(s, w), w)
  {
  }

  lemma ThroughReports(s: State, w: nat)
    requires w < |s.workers| && WorkerOk(s, w) && (s.workers[w].pc.Signal? || s.workers[w].pc.Unlock? || s.workers[w].pc.Done?)
    ensures Reports(s, w, LeaveNext(s, w)) && WorkerOk(LeaveNext(s, w), w)
  {
  }

  lemma WorkerReports(s: State, w: nat, ok: bool)
    requires w < |s.workers| && WorkerOk(s, w)
    ensures Reports(s, w, WorkerNext(s, w, ok)) && WorkerOk(WorkerNext(s, w, ok), w)
  {
    if Starting(s.workers[w].pc) {
      StartReports(s, w, ok);
    } else if BeforeTable(s.workers[w].pc) {
      SessionReports(s, w, ok);
    } else if AtTable(s.workers[w].pc) {
      TableReports(s, w, ok);
    } else if s.workers[w].pc.Leave? || s.workers[w].pc.Decrement? {
      LeaveReports(s, w);
    } else {
      ThroughReports(s, w);
    }
  }

  lemma OtherWorkerOk(s: State, w: nat, n: State, v: nat)
    requires w < |s.workers| && v < |s.workers| && v != w && Accounts(s) && Moves(s, w, n) && Reports(s, w, n)
    ensures WorkerOk(n, v)
  {
    assert WorkerOk(s, v) && WorkerOk(s, w) && n.workers[v] == s.workers[v];
    assert s.workers[v].table != s.workers[w].table;
  }

  lemma WorkerAccounts(c: Config, s: State, w: nat, ok: bool)
    requires Sound(c, s) && WorkerEnabled(s, w)
    ensures Accounts(WorkerNext(s, w, ok))
  {
    var n := WorkerNext(s, w, ok);
    var mine := s.workers[w].table;
    WorkerMoves(s, w, ok);
    WorkerReports(s, w, ok);
    forall v | 0 <= v < |n.workers| ensures WorkerOk(n, v) {
      if v != w { OtherWorkerOk(s, w, n, v); }
    }
    forall t: nat ensures TableOk(n, t) {
      assert TableOk(s, t);
      KeepsWorker(s, n, t);
      assert t == mine ==> n.workers[w].table == t;
    }
    CodeStays(s, w, n);
  }

  lemma CodeStays(s: State, w: nat, n: State)
    requires w < |s.workers| && Accounts(s) && Reports(s, w, n) && WorkerOk(n, w) && Moves(s, w, n)
    ensures n.exitcode == 0 || (n.exitcode == 1 && AnyRefused(n))
    ensures AnyRefused(s) ==> AnyRefused(n)
  {
    assert WorkerOk(s, w);
    RefusedStays(s, n);
    assert s.workers[w].pc.StoreCode? ==> s.outcome[s.workers[w].table].Refused?;
  }

  lemma SessionTidy(c: Config, s: State, w: nat, ok: bool)
    requires Tidy(c, s) && s.end.Running? && w < |s.workers| && WorkerOk(s, w) && BeforeTable(s.workers[w].pc)
    requires Moves(s, w, SessionNext(s, w, ok))
    ensures Tidy(c, SessionNext(s, w, ok))
  {
  }

  lemma TableTidy(c: Config, s: State, w: nat, ok: bool)
    requires Tidy(c, s) && s.end.Running? && w < |s.workers| && WorkerOk(s, w) && AtTable(s.workers[w].pc)
    requires Moves(s, w, TableNext(s, w, ok))
    ensures Tidy(c, TableNext(s, w, ok))
  {
    assert s.workers[w].pc.WriteFailed? ==> s.outcome[s.workers[w].table].Refused?;
  }

  lemma LeaveTidy(c: Config, s: State, w: nat)
    requires Tidy(c, s) && s.end.Running? && w < |s.workers|
    requires !BeforeTable(s.workers[w].pc) && !AtTable(s.workers[w].pc) && Moves(s, w, LeaveNext(s, w))
    ensures Tidy(c, LeaveNext(s, w))
  {
  }

  lemma WorkerTidy(c: Config, s: State, w: nat, ok: bool)
    requires Sound(c, s) && WorkerEnabled(s, w)
    ensures Tidy(c, WorkerNext(s, w, ok))
  {
    WorkerMoves(s, w, ok);
    assert WorkerOk(s, w);
    if BeforeTable(s.workers[w].pc) {
      SessionTidy(c, s, w, ok);
    } else if AtTable(s.workers[w].pc) {
      TableTidy(c, s, w, ok);
    } else {
      LeaveTidy(c, s, w);
    }
  }

  // ----- whole runs ------------------------------------------------------------------------------------------

  lemma StepSound(c: Config, s: State, a: Action)
    requires Sound(c, s) && Enabled(s, a)
    ensures Sound(c, Next(c, s, a))
  {
    StepSafe(c, s, a);
    match a
    case MainStep(ok) =>
      MainAccounts(c, s, ok);
      if InLoop(s.main) { LoopTidy(c, s, ok); } else { FinalTidy(c, s); }
    case WorkerStep(w, ok) =>
      WorkerAccounts(c, s, w, ok);
      WorkerTidy(c, s, w, ok);
  }

  lemma {:induction false} RunSound(c: Config, s: State, actions: seq<Action>)
    requires Sound(c, s)
    ensures Sound(c, Run(c, s, actions))
    decreases |actions|
  {
    if actions != [] && Enabled(s, actions[0]) {
      StepSound(c, s, actions[0]);
      RunSound(c, Next(c, s, actions[0]), actions[1..]);
    }
  }

  lemma InitSound(c: Config, force: bool)
    ensures Sound(c, Init(force))
  {
    InitSafe(c, force);
  }

  lemma Reached(c: Config, force: bool, actions: seq<Action>)
    ensures Sound(c, Run(c, Init(force), actions))
  {
    InitSound(c, force);
    RunSound(c, Init(force), actions);
  }

  /**
   The exit code: on return it is non-zero exactly when some table was refused, and
   then every table has an outcome; a process that ends early ends with 1, for a
   refused table or because there was no session.
   */
  lemma ExitCode(c: Config, force: bool, actions: seq<Action>)
    ensures var s := Run(c, Init(force), actions);
            && (s.end.Returned? ==> (s.end.code != 0 <==> AnyRefused(s)) && forall t: nat :: t in s.outcome <==> t < c.tables)
            && (s.end.Died? ==> s.end.code == 1 && (AnyRefused(s) || s.noSession))
  {
    var s := Run(c, Init(force), actions);
    Reached(c, force, actions);
    if s.end.Returned? {
      AllDecided(c, s);
      if AnyRefused(s) {
        var t :| t in s.outcome && s.outcome[t].Refused?;
        RefusedReported(c, s, t);
      }
    }
  }

  lemma AllDecided(c: Config, s: State)
    requires Sound(c, s) && Closing(s.main)
    ensures forall t: nat :: t in s.outcome <==> t < c.tables
  {
    forall t: nat ensures t in s.outcome <==> t < c.tables {
      assert TableOk(s, t);
      forall w | 0 <= w < |s.workers| ensures s.workers[w].table in s.outcome { assert WorkerOk(s, w); }
    }
  }

  lemma RefusedReported(c: Config, s: State, t: nat)
    requires Sound(c, s) && Closing(s.main) && t in s.outcome && s.outcome[t].Refused?
    ensures s.exitcode != 0
  {
    assert TableOk(s, t);
    var w :| 0 <= w < |s.workers| && s.workers[w].table == t;
    assert WorkerOk(s, w);
  }

  // ----- what exit code 0 tells ------------------------------------------------------------------------------

  /** The answers that lose a table: no thread, no memory for one, no handle, or no character set. */
  predicate Setback(s: State, a: Action) {
    match a
    case MainStep(ok) => s.main.Create? && !ok
    case WorkerStep(w, ok) =>
      w < |s.workers| && !ok && (s.workers[w].pc.Begin? || s.workers[w].pc.InitHeld? || s.workers[w].pc.Charset?)
  }

  /** Some call of the run was answered like that. */
  predicate AnySetback(c: Config, s: State, actions: seq<Action>)
    decreases |actions|
  {
    actions != [] && Enabled(s, actions[0]) &&
    (Setback(s, actions[0]) || AnySetback(c, Next(c, s, actions[0]), actions[1..]))
  }

  ghost predicate AnyLost(s: State) {
    exists t | t in s.outcome :: s.outcome[t].Lost?
  }

  /** On the way to losing a table. */
  predicate Losing(p: WorkerPc) {
    p.CharsetFailed?
  }

  ghost predicate AnyLosing(ws: seq<Worker>) {
    exists w | 0 <= w < |ws| :: Losing(ws[w].pc)
  }

  predicate Undoing(m: MainPc) {
    m.UndoLock? || m.Undo? || m.UndoUnlock?
  }

  /** A table is lost, or will be unless the process dies. */
  ghost predicate Trouble(s: State) {
    AnyLost(s) || Undoing(s.main) || AnyLosing(s.workers)
  }

  lemma LoopUndoing(c: Config, s: State, ok: bool)
    requires InLoop(s.main) && !s.main.UndoUnlock?
    ensures Undoing(LoopNext(c, s, ok).main) <==> Undoing(s.main) || (s.main.Create? && !ok)
  {
  }

  lemma FinalUndoing(s: State)
    requires !InLoop(s.main)
    ensures !Undoing(FinalNext(s).main) && !Undoing(s.main)
  {
  }

  lemma MainTrouble(c: Config, s: State, ok: bool)
    requires Sound(c, s) && MainEnabled(s)
    ensures Trouble(MainNext(c, s, ok)) <==> Trouble(s) || Setback(s, MainStep(ok))
  {
    hide Safe, Tidy, Accounts, Losing, AnyLosing, LoopNext, FinalNext;
    if s.main.UndoUnlock? {
      UndoLoses(c, s, ok);
    } else if s.main.Create? && ok {
      CreateLosesNothing(c, s);
    } else if InLoop(s.main) {
      LoopUndoing(c, s, ok);
      LoopSameTables(c, s, ok);
    } else {
      FinalUndoing(s);
      FinalSameTables(s);
    }
  }

  lemma UndoLoses(c: Config, s: State, ok: bool)
    requires s.main.UndoUnlock?
    ensures AnyLost(LoopNext(c, s, ok))
  {
    assert LoopNext(c, s, ok).outcome[s.next].Lost?;
  }

  lemma CreateLosesNothing(c: Config, s: State)
    requires s.main.Create?
    ensures var n := LoopNext(c, s, true);
            n.outcome == s.outcome && !Undoing(n.main) && (AnyLosing(n.workers) <==> AnyLosing(s.workers))
  {
    SameLosing(s.workers, Worker(s.next, Begin));
  }

  lemma SameLosing(ws: seq<Worker>, x: Worker)
    ensures !Losing(x.pc) ==> (AnyLosing(ws + [x]) <==> AnyLosing(ws))
  {
    hide Losing;
    if AnyLosing(ws) {
      var w :| 0 <= w < |ws| && Losing(ws[w].pc);
      assert (ws + [x])[w] == ws[w];
    }
  }

  /** The worker's table has just been lost. */
  predicate JustLost(s: State, w: nat, n: State)
    requires w < |s.workers|
  {
    var t := s.workers[w].table;
    t !in s.outcome && t in n.outcome && n.outcome[t].Lost?
  }

  lemma OwnTrouble(s: State, w: nat, ok: bool)
    requires w < |s.workers| && WorkerOk(s, w)
    ensures var n := WorkerNext(s, w, ok);
            |n.workers| == |s.workers| &&
            (JustLost(s, w, n) || Losing(n.workers[w].pc) <==> Losing(s.workers[w].pc) || Setback(s, WorkerStep(w, ok)))
  {
    var p := s.workers[w].pc;
    if Starting(p) {
      StartTrouble(s, w, ok);
    } else if BeforeTable(p) {
      SessionTrouble(s, w, ok);
    } else if AtTable(p) {
      TableTrouble(s, w, ok);
    }
  }

  lemma StartTrouble(s: State, w: nat, ok: bool)
    requires w < |s.workers| && WorkerOk(s, w) && Starting(s.workers[w].pc)
    ensures var n := SessionNext(s, w, ok);
            |n.workers| == |s.workers| &&
            (JustLost(s, w, n) || Losing(n.workers[w].pc) <==> Losing(s.workers[w].pc) || Setback(s, WorkerStep(w, ok)))
  {
  }

  lemma SessionTrouble(s: State, w: nat, ok: bool)
    requires w < |s.workers| && WorkerOk(s, w) && BeforeTable(s.workers[w].pc) && !Starting(s.workers[w].pc)
    ensures var n := SessionNext(s, w, ok);
            |n.workers| == |s.workers| &&
            (JustLost(s, w, n) || Losing(n.workers[w].pc) <==> Losing(s.workers[w].pc) || Setback(s, WorkerStep(w, ok)))
  {
  }

  lemma TableTrouble(s: State, w: nat, ok: bool)
    requires w < |s.workers| && WorkerOk(s, w) && AtTable(s.workers[w].pc)
    ensures var n := TableNext(s, w, ok); |n.workers| == |s.workers| && !JustLost(s, w, n) && !Losing(n.workers[w].pc)
  {
  }

  lemma LostAfter(s: State, w: nat, n: State)
    requires w < |s.workers| && Reports(s, w, n)
    ensures AnyLost(n) <==> AnyLost(s) || JustLost(s, w, n)
  {
    if AnyLost(s) {
      var t :| t in s.outcome && s.outcome[t].Lost?;
      assert t in n.outcome && n.outcome[t].Lost?;
    }
  }

  lemma LosingAfter(ws: seq<Worker>, w: nat, x: Worker)
    requires w < |ws|
    ensures Losing(x.pc) ==> AnyLosing(ws[w := x])
    ensures AnyLosing(ws[w := x]) ==> Losing(x.pc) || AnyLosing(ws)
    ensures AnyLosing(ws) ==> Losing(ws[w].pc) || AnyLosing(ws[w := x])
  {
    hide Losing;
    var n := ws[w := x];
    assert n[w] == x;
    if AnyLosing(n) {
      var v :| 0 <= v < |n| && Losing(n[v].pc);
      assert v != w ==> ws[v] == n[v];
    }
    if AnyLosing(ws) {
      var v :| 0 <= v < |ws| && Losing(ws[v].pc);
      assert v != w ==> n[v] == ws[v];
    }
  }

  lemma WorkerTrouble(c: Config, s: State, w: nat, ok: bool)
    requires Sound(c, s) && WorkerEnabled(s, w)
    ensures Trouble(WorkerNext(s, w, ok)) <==> Trouble(s) || Setback(s, WorkerStep(w, ok))
  {
    hide Safe, Tidy, Losing, WorkerNext, JustLost, AnyLost, AnyLosing, WorkerOk;
    var n := WorkerNext(s, w, ok);
    WorkerMoves(s, w, ok);
    WorkerReports(s, w, ok);
    OwnTrouble(s, w, ok);
    LostAfter(s, w, n);
    LosingAfter(s.workers, w, n.workers[w]);
    assert Losing(s.workers[w].pc) ==> AnyLosing(s.workers) by { LosingAfter(s.workers, w, s.workers[w]); SameWorkers(s.workers, w); }
  }

  lemma SameWorkers(ws: seq<Worker>, w: nat)
    requires w < |ws|
    ensures ws[w := ws[w]] == ws
  {
  }

  /** A table is lost, or about to be, exactly if a call was answered no. */
  lemma {:induction false} TroubleIff(c: Config, s: State, actions: seq<Action>)
    requires Sound(c, s)
    ensures Trouble(Run(c, s, actions)) <==> Trouble(s) || AnySetback(c, s, actions)
    decreases |actions|
  {
    hide Sound, Trouble, Setback;
    if actions != [] && Enabled(s, actions[0]) {
      var a := actions[0];
      match a {
        case MainStep(ok) => MainTrouble(c, s, ok);
        case WorkerStep(w, ok) => WorkerTrouble(c, s, w, ok);
      }
      StepSound(c, s, a);
      TroubleIff(c, Next(c, s, a), actions[1..]);
    }
  }

  /**
   Exit code 0 means that every table was loaded, if and only if on the way every
   thread could be created and initialised, got its handle, and could set its
   character set.
   */
  lemma ZeroMeansLoadedIff(c: Config, force: bool, actions: seq<Action>)
    requires Run(c, Init(force), actions).end == Returned(0)
    ensures var o := Run(c, Init(force), actions).outcome;
            (forall t: nat | t < c.tables :: t in o && o[t].Loaded?) <==> !AnySetback(c, Init(force), actions)
  {
    hide Run, AnySetback, Safe;
    var s := Run(c, Init(force), actions);
    ExitCode(c, force, actions);
    Reached(c, force, actions);
    InitSound(c, force);
    TroubleIff(c, Init(force), actions);
    assert !Undoing(s.main) && !AnyLosing(s.workers) by { QuietAtEnd(c, s); }
    assert !Trouble(Init(force));
  }

  lemma QuietAtEnd(c: Config, s: State)
    requires Sound(c, s) && s.end.Returned?
    ensures !Undoing(s.main) && !AnyLosing(s.workers)
  {
    hide Locks, Counted;
  }

  /** Every thread that was created is joined exactly once, in the order of the handles, when it is through. */
  lemma JoinedOnce(c: Config, force: bool, actions: seq<Action>)
    ensures var s := Run(c, Init(force), actions);
            && |s.workers| <= c.tables && (s.main.Create? ==> |s.workers| < c.tables)
            && |s.joins| <= |s.workers|
            && (forall k | 0 <= k < |s.joins| :: s.joins[k] == k && s.workers[k].pc.Done?)
            && (s.end.Returned? ==> |s.joins| == |s.workers|)
  {
    Reached(c, force, actions);
  }

  // ----- nobody is stuck -----------------------------------------------------------------------------------------

  /** A thread that cannot go on waits for a mutex whose holder can. */
  lemma HolderRuns(c: Config, s: State, w: nat)
    requires Sound(c, s) && s.end.Running? && w < |s.workers| && !s.workers[w].pc.Done? && !WorkerEnabled(s, w)
    ensures var m := if s.workers[w].pc.InitLock? then s.initMutex else s.counterMutex;
            m.Held? && if m.owner.Main? then MainEnabled(s) else WorkerEnabled(s, m.owner.w)
  {
    assert LockAt(s, w);
    var m := if s.workers[w].pc.InitLock? then s.initMutex else s.counterMutex;
    if m.Held? && m.owner.Thread? { assert LockAt(s, m.owner.w); }
  }

  lemma MainHolderRuns(c: Config, s: State)
    requires Sound(c, s) && s.end.Running? && !MainEnabled(s)
    ensures s.counterMutex.Held? && s.counterMutex.owner.Thread? && WorkerEnabled(s, s.counterMutex.owner.w)
  {
    if s.counterMutex.Held? && s.counterMutex.owner.Thread? { assert LockAt(s, s.counterMutex.owner.w); }
  }

  /** Until the process ends, some thread can always take a step. */
  lemma NoDeadlock(c: Config, force: bool, actions: seq<Action>)
    requires Run(c, Init(force), actions).end.Running?
    ensures exists a :: Enabled(Run(c, Init(force), actions), a)
  {
    var s := Run(c, Init(force), actions);
    Reached(c, force, actions);
    if MainEnabled(s) {
      assert Enabled(s, MainStep(true));
    } else {
      MainHolderRuns(c, s);
      assert Enabled(s, WorkerStep(s.counterMutex.owner.w, true));
    }
  }

  // ----- the work is bounded ----------------------------------------------------------------------------------------

  /** How many steps a worker has still to take, at most. */
  function WorkerRank(p: WorkerPc): nat {
    match p
    case Begin => 15 case InitLock => 14 case InitHeld => 13 case Connect => 12
    case ConnectFailed => 11 case Charset => 10 case CharsetFailed => 9
    case Write => 8 case WriteFailed => 7 case CheckCode => 6 case StoreCode => 5
    case Leave => 4 case Decrement => 3 case Signal => 2 case Unlock => 1 case Done => 0
  }

  function MainRank(m: MainPc): nat {
    match m
    case Head => 30 case LoopLock => 29 case Test => 28 case Wait => 28 case Reserved => 27
    case Create => 26 case UndoLock => 25 case Undo => 24 case UndoUnlock => 23
    case FinalLock => 20 case FinalTest => 19 case FinalWait => 19 case FinalUnlock => 18
    case DestroyInit => 17 case DestroyCounter => 16 case DestroyCond => 15 case Join => 14
  }

  function WorkersRank(ws: seq<Worker>): nat {
    if ws == [] then 0 else WorkersRank(ws[..|ws| - 1]) + WorkerRank(ws[|ws| - 1].pc)
  }

  function Work(c: Config, s: State): int {
    25 * (c.tables - s.next) + MainRank(s.main) + WorkersRank(s.workers) + |s.workers| - |s.joins| + if s.end.Running? then 1 else 0
  }

  lemma {:induction false} RankAfterUpdate(ws: seq<Worker>, w: nat, x: Worker)
    requires w < |ws|
    ensures WorkersRank(ws[w := x]) == WorkersRank(ws) - WorkerRank(ws[w].pc) + WorkerRank(x.pc)
  {
    var n := |ws| - 1;
    if w == n {
      assert ws[w := x][..n] == ws[..n];
    } else {
      assert ws[w := x][..n] == ws[..n][w := x];
      RankAfterUpdate(ws[..n], w, x);
    }
  }

  lemma RankAfterAppend(ws: seq<Worker>, x: Worker)
    ensures WorkersRank(ws + [x]) == WorkersRank(ws) + WorkerRank(x.pc)
  {
    assert (ws + [x])[..|ws|] == ws;
  }

  /** The main thread looks at the counter in vain, or wakes up to look again. */
  predicate Polls(c: Config, s: State, a: Action) {
    a.MainStep? &&
    match s.main
    case Test => s.counter == c.useThreads
    case FinalTest => s.counter != 0
    case Wait => true
    case FinalWait => true
    case _ => false
  }

  lemma CreateWork(c: Config, s: State, ok: bool)
    requires s.main.Create?
    ensures Work(c, LoopNext(c, s, ok)) < Work(c, s)
  {
    RankAfterAppend(s.workers, Worker(s.next, Begin));
  }

  lemma TestWork(c: Config, s: State, ok: bool)
    requires s.main.Test?
    ensures var n := LoopNext(c, s, ok);
            if Polls(c, s, MainStep(ok)) then Work(c, n) == Work(c, s) else Work(c, n) < Work(c, s)
  {
  }

  lemma ReservingWork(c: Config, s: State, ok: bool)
    requires Reserving(s.main) && !s.main.Test?
    ensures var n := LoopNext(c, s, ok);
            if Polls(c, s, MainStep(ok)) then Work(c, n) == Work(c, s) else Work(c, n) < Work(c, s)
  {
    assert LoopNext(c, s, ok).workers == s.workers;
  }

  lemma UndoWork(c: Config, s: State, ok: bool)
    requires InLoop(s.main) && !Reserving(s.main) && !s.main.Create?
    ensures Work(c, LoopNext(c, s, ok)) < Work(c, s)
  {
    assert LoopNext(c, s, ok).workers == s.workers;
  }

  lemma JoinWork(c: Config, s: State)
    requires s.end.Running? && s.main.Join?
    ensures Work(c, FinalNext(s)) < Work(c, s)
  {
    hide WorkersRank;
  }

  lemma FinalWork(c: Config, s: State, ok: bool)
    requires s.end.Running? && !InLoop(s.main) && !s.main.Join?
    ensures var n := FinalNext(s);
            if Polls(c, s, MainStep(ok)) then Work(c, n) == Work(c, s) else Work(c, n) < Work(c, s)
  {
    hide WorkersRank;
  }

  /** The worker has fewer steps to go, or has ended the process. */
  ghost predicate Down(s: State, w: nat, n: State) {
    && w < |s.workers| == |n.workers|
    && (WorkerRank(n.workers[w].pc) < WorkerRank(s.workers[w].pc) || (n.end.Died? && n.workers == s.workers))
  }

  lemma SessionDown(s: State, w: nat, ok: bool)
    requires w < |s.workers| && BeforeTable(s.workers[w].pc)
    ensures Down(s, w, SessionNext(s, w, ok))
  {
  }

  lemma TableDown(s: State, w: nat, ok: bool)
    requires w < |s.workers| && AtTable(s.workers[w].pc)
    ensures Down(s, w, TableNext(s, w, ok))
  {
  }

  lemma LeaveDown(s: State, w: nat)
    requires WorkerEnabled(s, w) && !BeforeTable(s.workers[w].pc) && !AtTable(s.workers[w].pc)
    ensures Down(s, w, LeaveNext(s, w))
  {
  }

  lemma WorkerDown(s: State, w: nat, ok: bool)
    requires WorkerEnabled(s, w)
    ensures Down(s, w, WorkerNext(s, w, ok))
  {
    if BeforeTable(s.workers[w].pc) {
      SessionDown(s, w, ok);
    } else if AtTable(s.workers[w].pc) {
      TableDown(s, w, ok);
    } else {
      LeaveDown(s, w);
    }
  }

  lemma WorkerWork(c: Config, s: State, w: nat, ok: bool)
    requires WorkerEnabled(s, w)
    ensures Work(c, WorkerNext(s, w, ok)) < Work(c, s)
  {
    WorkerMoves(s, w, ok);
    WorkerDown(s, w, ok);
    RankAfterUpdate(s.workers, w, WorkerNext(s, w, ok).workers[w]);
  }

  function StepsWithoutPolls(c: Config, s: State, actions: seq<Action>): nat
    decreases |actions|
  {
    if actions == [] || !Enabled(s, actions[0]) then 0
    else (if Polls(c, s, actions[0]) then 0 else 1) + StepsWithoutPolls(c, Next(c, s, actions[0]), actions[1..])
  }

  lemma {:induction false} RunWork(c: Config, s: State, actions: seq<Action>)
    requires Sound(c, s)
    ensures StepsWithoutPolls(c, s, actions) <= Work(c, s)
    decreases |actions|
  {
    if actions != [] && Enabled(s, actions[0]) {
      var a := actions[0];
      match a {
        case MainStep(ok) =>
          if s.main.Create? {
            CreateWork(c, s, ok);
          } else if s.main.Test? {
            TestWork(c, s, ok);
          } else if Reserving(s.main) {
            ReservingWork(c, s, ok);
          } else if InLoop(s.main) {
            UndoWork(c, s, ok);
          } else if s.main.Join? {
            JoinWork(c, s);
          } else {
            FinalWork(c, s, ok);
          }
        case WorkerStep(w, ok) => WorkerWork(c, s, w, ok);
      }
      StepSound(c, s, a);
      RunWork(c, Next(c, s, a), actions[1..]);
    }
  }

  /** However the threads are scheduled, all they do besides polling takes at most 25 steps a table and 31 more. */
  lemma BoundedWork(c: Config, force: bool, actions: seq<Action>)
    ensures StepsWithoutPolls(c, Init(force), actions) <= 25 * c.tables + 31
  {
    InitSound(c, force);
    RunWork(c, Init(force), actions);
  }

  // ----- what the exit code does not tell -----------------------------------------------------------------------------

  lemma RunStep(c: Config, s: State, a: Action, rest: seq<Action>)
    requires Enabled(s, a)
    ensures Run(c, s, [a] + rest) == Run(c, Next(c, s, a), rest)
  {
    assert ([a] + rest)[1..] == rest;
  }

  function MainSteps(n: nat, ok: bool): seq<Action> {
    if n == 0 then [] else [MainStep(ok)] + MainSteps(n - 1, ok)
  }

  lemma MainAlone(c: Config, s: State, n: nat, ok: bool)
    requires MainEnabled(s)
    ensures Run(c, s, MainSteps(n + 1, ok)) == Run(c, MainNext(c, s, ok), MainSteps(n, ok))
  {
    RunStep(c, s, MainStep(ok), MainSteps(n, ok));
  }

  lemma Reserves(c: Config, s: State, n: nat)
    requires s.end.Running? && s.main.LoopLock? && s.counter < c.useThreads && s.counterMutex.Free?
    ensures Run(c, s, MainSteps(n + 2, false)) ==
            Run(c, s.(main := Reserved, counterMutex := Held(Main), counter := s.counter + 1), MainSteps(n, false))
  {
    hide Run, MainSteps;
    MainAlone(c, s, n + 1, false);
    MainAlone(c, s.(main := Test, counterMutex := Held(Main)), n, false);
  }

  lemma FailsToCreate(c: Config, s: State, n: nat)
    requires s.end.Running? && s.main.Reserved?
    ensures Run(c, s, MainSteps(n + 2, false)) == Run(c, s.(main := UndoLock, counterMutex := Free), MainSteps(n, false))
  {
    hide Run, MainSteps;
    MainAlone(c, s, n + 1, false);
    MainAlone(c, s.(main := Create, counterMutex := Free), n, false);
  }

  lemma Undoes(c: Config, s: State, n: nat)
    requires s.end.Running? && s.main.UndoLock? && s.counter > 0 && s.counterMutex.Free?
    ensures Run(c, s, MainSteps(n + 2, false)) ==
            Run(c, s.(main := UndoUnlock, counterMutex := Held(Main), counter := s.counter - 1), MainSteps(n, false))
  {
    hide Run, MainSteps;
    MainAlone(c, s, n + 1, false);
    MainAlone(c, s.(main := Undo, counterMutex := Held(Main)), n, false);
  }

  lemma GetsNoWorker(c: Config, s: State, n: nat)
    requires s.end.Running? && s.main.Head? && s.next < c.tables && s.counter < c.useThreads && s.counterMutex.Free?
    ensures Run(c, s, MainSteps(n + 5, false)) == Run(c, s.(main := UndoLock, counter := s.counter + 1), MainSteps(n, false))
  {
    hide Run, MainSteps;
    MainAlone(c, s, n + 4, false);
    Reserves(c, s.(main := LoopLock), n + 2);
    FailsToCreate(c, s.(main := Reserved, counterMutex := Held(Main), counter := s.counter + 1), n);
  }

  lemma GivesSlotBack(c: Config, s: State, n: nat)
    requires s.end.Running? && s.main.UndoLock? && s.counter > 0 && s.counterMutex.Free?
    ensures Run(c, s, MainSteps(n + 3, false)) ==
            Run(c, s.(main := Head, counter := s.counter - 1, next := s.next + 1, outcome := s.outcome[s.next := Lost]), MainSteps(n, false))
  {
    hide Run, MainSteps;
    Undoes(c, s, n + 1);
    MainAlone(c, s.(main := UndoUnlock, counterMutex := Held(Main), counter := s.counter - 1), n, false);
  }

  lemma LosesOnlyTable(c: Config, s: State, n: nat)
    requires c.tables == 1 && c.useThreads > 0 && s == Init(s.ignoreErrors)
    ensures Run(c, s, MainSteps(n + 8, false)) ==
            Run(c, s.(main := Head, next := 1, outcome := map[0 := Lost]), MainSteps(n, false))
  {
    hide Run, MainSteps;
    GetsNoWorker(c, s, n + 3);
    GivesSlotBack(c, s.(main := UndoLock, counter := 1), n);
  }

  lemma SeesZero(c: Config, s: State, n: nat)
    requires s.end.Running? && s.main.FinalLock? && s.counter == 0 && s.counterMutex.Free?
    ensures Run(c, s, MainSteps(n + 2, false)) == Run(c, s.(main := FinalUnlock, counterMutex := Held(Main)), MainSteps(n, false))
  {
    hide Run, MainSteps;
    MainAlone(c, s, n + 1, false);
    MainAlone(c, s.(main := FinalTest, counterMutex := Held(Main)), n, false);
  }

  lemma Destroys(c: Config, s: State, n: nat)
    requires s.end.Running? && s.main.DestroyInit?
    ensures Run(c, s, MainSteps(n + 2, false)) ==
            Run(c, s.(main := DestroyCond, initMutex := Destroyed, counterMutex := Destroyed), MainSteps(n, false))
  {
    hide Run, MainSteps;
    MainAlone(c, s, n + 1, false);
    MainAlone(c, s.(main := DestroyCounter, initMutex := Destroyed), n, false);
  }

  lemma Returns(c: Config, s: State, n: nat)
    requires s.end.Running? && s.main.DestroyCond? && s.workers == [] && s.joins == []
    ensures Run(c, s, MainSteps(n + 2, false)) == s.(main := Join, condAlive := false, end := Returned(s.exitcode))
  {
    MainAlone(c, s, n + 1, false);
    MainAlone(c, s.(main := Join, condAlive := false), n, false);
  }

  lemma ClosesDown(c: Config, s: State, n: nat)
    requires s.end.Running? && s.main.Head? && s.next >= c.tables && s.counter == 0 && s.counterMutex.Free?
    requires s.workers == [] && s.joins == []
    ensures var r := Run(c, s, MainSteps(n + 8, false)); r.end == Returned(s.exitcode) && r.outcome == s.outcome
  {
    hide Run, MainSteps;
    MainAlone(c, s, n + 7, false);
    SeesZero(c, s.(main := FinalLock), n + 5);
    MainAlone(c, s.(main := FinalUnlock, counterMutex := Held(Main)), n + 4, false);
    Destroys(c, s.(main := DestroyInit), n + 2);
    Returns(c, s.(main := DestroyCond, initMutex := Destroyed, counterMutex := Destroyed), n);
  }

  /** A table whose thread could not be created is not loaded, and the exit code is 0 all the same. */
  lemma LostTableGoesUnnoticed(c: Config, force: bool, n: nat)
    requires c.tables == 1 && c.useThreads > 0
    ensures var s := Run(c, Init(force), MainSteps(n + 16, false)); s.end == Returned(0) && s.outcome == map[0 := Lost]
  {
    hide Run, MainSteps;
    LosesOnlyTable(c, Init(force), n + 8);
    ClosesDown(c, Init(force).(main := Head, next := 1, outcome := map[0 := Lost]), n);
  }

  /** A worker that gets no connection ends the process with 1, even with --force and no table refused. */
  lemma NoConnectionEndsAll(c: Config, s: State)
    requires s.end.Running? && |s.workers| > 0 && s.workers[0].pc.Connect?
    ensures var n := Run(c, s, [WorkerStep(0, false), WorkerStep(0, false)]); n.end == Died(1) && n.outcome == s.outcome
  {
    RunStep(c, s, WorkerStep(0, false), [WorkerStep(0, false)]);
    RunStep(c, Next(c, s, WorkerStep(0, false)), WorkerStep(0, false), []);
  }
}
