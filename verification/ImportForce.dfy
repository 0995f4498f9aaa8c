/**
 What --force does: which failures end the process and which ones are passed over, in
 every interleaving and told from the answers of the calls alone.
 */
module ImportForce {
  import opened ImportThreads
  import opened ImportTheorems

  /** A worker asks for its connection and gets none. */
  predicate Disconnected(s: State, a: Action) {
    a.WorkerStep? && a.w < |s.workers| && s.workers[a.w].pc.Connect? && !a.ok
  }

  predicate AnyDisconnected(c: Config, s: State, actions: seq<Action>)
    decreases |actions|
  {
    actions != [] && Enabled(s, actions[0]) &&
    (Disconnected(s, actions[0]) || AnyDisconnected(c, Next(c, s, actions[0]), actions[1..]))
  }

  // ----- one step -------------------------------------------------------------------------------------------

  /** A worker that has met a failure and has to do with it. */
  predicate StuckAt(p: WorkerPc) {
    p.ConnectFailed? || p.CharsetFailed? || p.WriteFailed?
  }

  predicate NewlyRefused(s: State, w: nat, n: State)
    requires w < |s.workers|
  {
    var t := s.workers[w].table;
    t in n.outcome && n.outcome[t].Refused? && t !in s.outcome
  }

  /** What a worker's step means for failures. */
  predicate Takes(s: State, w: nat, ok: bool, n: State)
    requires w < |s.workers|
  {
    var pc := s.workers[w].pc;
    && |n.workers| == |s.workers|
    && (n.ignoreErrors <==> s.ignoreErrors && !(pc.Connect? && !ok))
    && n.end == (if StuckAt(pc) && !s.ignoreErrors then Died(1) else s.end)
    && (n.workers[w].pc.ConnectFailed? ==> pc.ConnectFailed? || (pc.Connect? && !ok))
    && ((n.noSession && !s.noSession) || NewlyRefused(s, w, n) ==> StuckAt(n.workers[w].pc))
  }

  lemma StartTakes(s: State, w: nat, ok: bool)
    requires w < |s.workers| && Starting(s.workers[w].pc)
    ensures Takes(s, w, ok, SessionNext(s, w, ok))
  {
  }

  lemma SessionTakes(s: State, w: nat, ok: bool)
    requires w < |s.workers| && BeforeTable(s.workers[w].pc) && !Starting(s.workers[w].pc)
    ensures Takes(s, w, ok, SessionNext(s, w, ok))
  {
  }

  lemma TableTakes(s: State, w: nat, ok: bool)
    requires w < |s.workers| && AtTable(s.workers[w].pc)
    ensures Takes(s, w, ok, TableNext(s, w, ok))
  {
  }

  lemma LeaveTakes(s: State, w: nat, ok: bool)
    requires w < |s.workers| && !BeforeTable(s.workers[w].pc) && !AtTable(s.workers[w].pc)
    ensures Takes(s, w, ok, LeaveNext(s, w))
  {
  }

  lemma WorkerTakes(s: State, w: nat, ok: bool)
    requires w < |s.workers|
    ensures Takes(s, w, ok, WorkerNext(s, w, ok))
  {
    hide Takes, SessionNext, TableNext, LeaveNext;
    if Starting(s.workers[w].pc) {
      StartTakes(s, w, ok);
    } else if BeforeTable(s.workers[w].pc) {
      SessionTakes(s, w, ok);
    } else if AtTable(s.workers[w].pc) {
      TableTakes(s, w, ok);
    } else {
      LeaveTakes(s, w, ok);
    }
  }

  /** The main thread has no part in it. */
  predicate LeavesAlone(s: State, n: State) {
    && n.ignoreErrors == s.ignoreErrors && n.noSession == s.noSession && (n.end.Died? <==> s.end.Died?)
    && |s.workers| <= |n.workers| && (forall w | 0 <= w < |s.workers| :: n.workers[w] == s.workers[w])
    && (forall w | |s.workers| <= w < |n.workers| :: n.workers[w].pc.Begin?)
    && (forall t | t in n.outcome && n.outcome[t].Refused? :: t in s.outcome && s.outcome[t].Refused?)
  }

  lemma LoopLeavesAlone(c: Config, s: State, ok: bool)
    requires InLoop(s.main)
    ensures LeavesAlone(s, LoopNext(c, s, ok))
  {
  }

  lemma FinalLeavesAlone(s: State)
    ensures s.end.Running? ==> LeavesAlone(s, FinalNext(s))
  {
  }

  lemma MainLeavesAlone(c: Config, s: State, ok: bool)
    requires s.end.Running?
    ensures LeavesAlone(s, MainNext(c, s, ok))
  {
    hide LeavesAlone, LoopNext, FinalNext;
    if InLoop(s.main) { LoopLeavesAlone(c, s, ok); } else { FinalLeavesAlone(s); }
  }

  // ----- over a run ------------------------------------------------------------------------------------------

  lemma StepIgnores(c: Config, s: State, a: Action)
    requires Enabled(s, a)
    ensures Next(c, s, a).ignoreErrors <==> s.ignoreErrors && !Disconnected(s, a)
  {
    hide MainNext, WorkerNext;
    match a
    case MainStep(ok) => MainLeavesAlone(c, s, ok);
    case WorkerStep(w, ok) => WorkerTakes(s, w, ok);
  }

  /** Errors are passed over as long as every worker has got its connection. */
  lemma {:induction false} ErrorsIgnoredIff(c: Config, s: State, actions: seq<Action>)
    ensures Run(c, s, actions).ignoreErrors <==> s.ignoreErrors && !AnyDisconnected(c, s, actions)
    decreases |actions|
  {
    hide Next, Enabled, Disconnected;
    if actions != [] && Enabled(s, actions[0]) {
      StepIgnores(c, s, actions[0]);
      ErrorsIgnoredIff(c, Next(c, s, actions[0]), actions[1..]);
    }
  }

  /**
   A worker that has got no connection; or whose character set or table was refused,
   without --force or when some worker has got no connection.
   */
  predicate Fatal(c: Config, force: bool, past: seq<Action>, a: Action) {
    var s := Run(c, Init(force), past);
    && a.WorkerStep? && a.w < |s.workers|
    && var pc := s.workers[a.w].pc;
       pc.ConnectFailed? || ((pc.CharsetFailed? || pc.WriteFailed?) && (!force || AnyDisconnected(c, Init(force), past)))
  }

  /** A step ends the process early exactly if it is such a worker's. */
  lemma DiesIff(c: Config, force: bool, past: seq<Action>, a: Action)
    requires Enabled(Run(c, Init(force), past), a)
    ensures Next(c, Run(c, Init(force), past), a).end.Died? <==> Fatal(c, force, past, a)
  {
    hide Run, AnyDisconnected, Safe, Tidy, MainNext, WorkerNext;
    var s := Run(c, Init(force), past);
    Reached(c, force, past);
    ErrorsIgnoredIff(c, Init(force), past);
    match a
    case MainStep(ok) => MainLeavesAlone(c, s, ok);
    case WorkerStep(w, ok) =>
      assert WorkerOk(s, w);
      WorkerTakes(s, w, ok);
  }

  // ----- with --force ------------------------------------------------------------------------------------

  /** Errors are passed over, nothing has ended the process, and no worker is without a connection. */
  predicate GoesOn(s: State) {
    s.ignoreErrors && !s.end.Died? && forall w | 0 <= w < |s.workers| :: !s.workers[w].pc.ConnectFailed?
  }

  lemma StepGoesOn(c: Config, s: State, a: Action)
    requires GoesOn(s) && Enabled(s, a) && !Disconnected(s, a)
    ensures GoesOn(Next(c, s, a))
  {
    hide MainNext, WorkerNext;
    match a
    case MainStep(ok) => MainLeavesAlone(c, s, ok);
    case WorkerStep(w, ok) =>
      WorkerTakes(s, w, ok);
      WorkerMoves(s, w, ok);
  }

  lemma {:induction false} RunGoesOn(c: Config, s: State, actions: seq<Action>)
    requires GoesOn(s) && !AnyDisconnected(c, s, actions)
    ensures GoesOn(Run(c, s, actions))
    decreases |actions|
  {
    hide Next, Enabled, Disconnected, GoesOn;
    if actions != [] && Enabled(s, actions[0]) {
      StepGoesOn(c, s, actions[0]);
      RunGoesOn(c, Next(c, s, actions[0]), actions[1..]);
    }
  }

  /** With --force no refused table ends the process: only a missing connection does. */
  lemma ForceGoesOn(c: Config, actions: seq<Action>)
    ensures Run(c, Init(true), actions).end.Died? ==> AnyDisconnected(c, Init(true), actions)
  {
    hide Run, AnyDisconnected;
    if !AnyDisconnected(c, Init(true), actions) { RunGoesOn(c, Init(true), actions); }
  }

  // ----- without it --------------------------------------------------------------------------------------

  /** Something has failed. */
  predicate AnyFailed(s: State) {
    s.noSession || AnyRefused(s)
  }

  /** A worker whose failure will end the process. */
  ghost predicate AnyStuck(s: State) {
    exists w | 0 <= w < |s.workers| :: StuckAt(s.workers[w].pc)
  }

  ghost predicate Strict(s: State) {
    !s.ignoreErrors && (AnyFailed(s) && !s.end.Died? ==> AnyStuck(s))
  }

  lemma MainStrict(c: Config, s: State, ok: bool)
    requires MainEnabled(s) && Strict(s)
    ensures Strict(MainNext(c, s, ok))
  {
    hide MainNext, StuckAt;
    var n := MainNext(c, s, ok);
    MainLeavesAlone(c, s, ok);
    if AnyStuck(s) {
      var w :| 0 <= w < |s.workers| && StuckAt(s.workers[w].pc);
      assert StuckAt(n.workers[w].pc);
    }
  }

  lemma WorkerStrict(c: Config, s: State, w: nat, ok: bool)
    requires Sound(c, s) && WorkerEnabled(s, w) && Strict(s)
    ensures Strict(WorkerNext(s, w, ok))
  {
    hide Safe, Tidy, WorkerNext, StuckAt, WorkerOk;
    var n := WorkerNext(s, w, ok);
    WorkerMoves(s, w, ok);
    WorkerReports(s, w, ok);
    WorkerTakes(s, w, ok);
    if AnyFailed(n) && !n.end.Died? && !StuckAt(n.workers[w].pc) {
      RefusedBefore(s, w, n);
      var v :| 0 <= v < |s.workers| && StuckAt(s.workers[v].pc);
      assert n.workers[v] == s.workers[v];
    }
  }

  lemma RefusedBefore(s: State, w: nat, n: State)
    requires w < |s.workers| && Reports(s, w, n)
    requires var t := s.workers[w].table; t in n.outcome && n.outcome[t].Refused? ==> t in s.outcome
    ensures AnyRefused(n) ==> AnyRefused(s)
  {
    if AnyRefused(n) {
      var t :| t in n.outcome && n.outcome[t].Refused?;
      assert t in s.outcome && s.outcome[t].Refused?;
    }
  }

  lemma {:induction false} RunStrict(c: Config, s: State, actions: seq<Action>)
    requires Sound(c, s) && Strict(s)
    ensures Strict(Run(c, s, actions))
    decreases |actions|
  {
    hide Sound, Strict;
    if actions != [] && Enabled(s, actions[0]) {
      var a := actions[0];
      match a {
        case MainStep(ok) => MainStrict(c, s, ok);
        case WorkerStep(w, ok) => WorkerStrict(c, s, w, ok);
      }
      StepSound(c, s, a);
      RunStrict(c, Next(c, s, a), actions[1..]);
    }
  }

  /** Without --force an import that returns has had no refused table and a session for every worker. */
  lemma ReturnsClean(c: Config, actions: seq<Action>)
    ensures var s := Run(c, Init(false), actions); s.end.Returned? ==> s.end.code == 0 && !AnyRefused(s) && !s.noSession
  {
    hide Run, Accounts, Locks, Counted;
    var s := Run(c, Init(false), actions);
    InitSound(c, false);
    Reached(c, false, actions);
    RunStrict(c, Init(false), actions);
    ExitCode(c, false, actions);
  }
}
