/**
 The parallel import: a main thread that starts one worker per table, never more
 than a given number at a time, and the workers, as a state machine in which any
 thread may take the next step.  What the server and the thread library answer is
 part of the action.
 */
module ImportThreads {

  datatype Owner = Main | Thread(w: nat)

  datatype Mutex = Free | Held(owner: Owner) | Destroyed

  /** Where a worker is; in the three places before the last it holds `counter_mutex`. */
  datatype WorkerPc =
    | Begin | InitLock | InitHeld | Connect | ConnectFailed | Charset | CharsetFailed
    | Write | WriteFailed | CheckCode | StoreCode
    | Leave | Decrement | Signal | Unlock | Done

  datatype MainPc =
    | Head | LoopLock | Test | Wait | Reserved | Create | UndoLock | Undo | UndoUnlock
    | FinalLock | FinalTest | FinalWait | FinalUnlock
    | DestroyInit | DestroyCounter | DestroyCond | Join

  datatype Worker = Worker(table: nat, pc: WorkerPc)

  /** What became of a table: nothing was attempted for a lost one. */
  datatype Outcome = Loaded | Refused | Lost

  datatype End = Running | Returned(code: nat) | Died(code: nat)

  datatype Config = Config(tables: nat, useThreads: nat)

  /** `outcome`, `joins` and `noSession` (a connection or session error occurred) record history. */
  datatype State = State(
    main: MainPc, next: nat, counter: nat, initMutex: Mutex, counterMutex: Mutex, condAlive: bool,
    workers: seq<Worker>, ignoreErrors: bool, exitcode: nat, end: End,
    outcome: map<nat, Outcome>, joins: seq<nat>, noSession: bool)

  function Init(force: bool): State {
    State(Head, 0, 0, Free, Free, true, [], force, 0, Running, map[], [], false)
  }

  // ----- the main thread -----------------------------------------------------------------------------

  predicate MainEnabled(s: State) {
    && s.end.Running?
    && ((s.main.LoopLock? || s.main.Wait? || s.main.UndoLock? || s.main.FinalLock? || s.main.FinalWait?) ==> s.counterMutex.Free?)
    && (s.main.Join? && |s.joins| < |s.workers| ==> s.workers[|s.joins|].pc.Done?)
  }

  /** The loop over the tables. */
  function LoopNext(c: Config, s: State, ok: bool): State {
    match s.main
    case Head => if s.next < c.tables then s.(main := LoopLock) else s.(main := FinalLock)
    case LoopLock => s.(main := Test, counterMutex := Held(Main))
    case Test => if s.counter == c.useThreads then s.(main := Wait, counterMutex := Free)
                 else s.(main := Reserved, counter := s.counter + 1)
    case Wait => s.(main := Test, counterMutex := Held(Main))
    case Reserved => s.(main := Create, counterMutex := Free)
    case Create => if ok then s.(main := Head, workers := s.workers + [Worker(s.next, Begin)], next := s.next + 1)
                   else s.(main := UndoLock)
    case UndoLock => s.(main := Undo, counterMutex := Held(Main))
    case Undo => s.(main := UndoUnlock, counter := if s.counter > 0 then s.counter - 1 else 0)
    case UndoUnlock => s.(main := Head, counterMutex := Free, outcome := s.outcome[s.next := Lost], next := s.next + 1)
    case _ => s
  }

  /** The wait for the workers, the destruction of the mutexes, and the joins. */
  function FinalNext(s: State): State {
    match s.main
    case FinalLock => s.(main := FinalTest, counterMutex := Held(Main))
    case FinalTest => if s.counter != 0 then s.(main := FinalWait, counterMutex := Free) else s.(main := FinalUnlock)
    case FinalWait => s.(main := FinalTest, counterMutex := Held(Main))
    case FinalUnlock => s.(main := DestroyInit, counterMutex := Free)
    case DestroyInit => s.(main := DestroyCounter, initMutex := Destroyed)
    case DestroyCounter => s.(main := DestroyCond, counterMutex := Destroyed)
    case DestroyCond => s.(main := Join, condAlive := false)
    case Join => if |s.joins| < |s.workers| then s.(joins := s.joins + [|s.joins|]) else s.(end := Returned(s.exitcode))
    case _ => s
  }

  predicate InLoop(m: MainPc) {
    m.Head? || m.LoopLock? || m.Test? || m.Wait? || m.Reserved? || m.Create? || m.UndoLock? || m.Undo? || m.UndoUnlock?
  }

  /** Up to the slot for the next worker. */
  predicate Reserving(m: MainPc) {
    m.Head? || m.LoopLock? || m.Test? || m.Wait? || m.Reserved?
  }

  function MainNext(c: Config, s: State, ok: bool): State {
    if InLoop(s.main) then LoopNext(c, s, ok) else FinalNext(s)
  }

  // ----- a worker ------------------------------------------------------------------------------------------

  predicate WorkerEnabled(s: State, w: nat) {
    && s.end.Running? && w < |s.workers| && !s.workers[w].pc.Done?
    && (s.workers[w].pc.InitLock? ==> s.initMutex.Free?)
    && (s.workers[w].pc.Leave? ==> s.counterMutex.Free?)
  }

  function At(s: State, w: nat, pc: WorkerPc): State
    requires w < |s.workers|
  {
    s.(workers := s.workers[w := s.workers[w].(pc := pc)])
  }

  function Settled(s: State, w: nat, o: Outcome): State
    requires w < |s.workers|
  {
    s.(outcome := s.outcome[s.workers[w].table := o])
  }

  /** Up to the session: `mysql_thread_init`, `db_connect` and the first statement. */
  function SessionNext(s: State, w: nat, ok: bool): State
    requires w < |s.workers|
  {
    match s.workers[w].pc
    case Begin => if ok then At(s, w, InitLock) else Settled(At(s, w, Leave), w, Lost)
    case InitLock => At(s, w, InitHeld).(initMutex := Held(Thread(w)))
    case InitHeld => if ok then At(s, w, Connect).(initMutex := Free)
                     else Settled(At(s, w, Leave), w, Lost).(initMutex := Free)
    case Connect => if ok then At(s, w, Charset) else At(s, w, ConnectFailed).(ignoreErrors := false, noSession := true)
    case ConnectFailed => if s.ignoreErrors then At(s, w, Charset) else s.(end := Died(1))
    case Charset => if ok then At(s, w, Write) else At(s, w, CharsetFailed).(noSession := true)
    case CharsetFailed => if s.ignoreErrors then Settled(At(s, w, Leave), w, Lost) else s.(end := Died(1))
    case _ => s
  }

  /** `write_to_table` and the exit code. */
  function TableNext(s: State, w: nat, ok: bool): State
    requires w < |s.workers|
  {
    match s.workers[w].pc
    case Write => if ok then Settled(At(s, w, Leave), w, Loaded) else Settled(At(s, w, WriteFailed), w, Refused)
    case WriteFailed => if s.ignoreErrors then At(s, w, CheckCode) else s.(end := Died(1))
    case CheckCode => At(s, w, if s.exitcode == 0 then StoreCode else Leave)
    case StoreCode => At(s, w, Leave).(exitcode := 1)
    case _ => s
  }

  /** The way out. */
  function LeaveNext(s: State, w: nat): State
    requires w < |s.workers|
  {
    match s.workers[w].pc
    case Leave => At(s, w, Decrement).(counterMutex := Held(Thread(w)))
    case Decrement => At(s, w, Signal).(counter := if s.counter > 0 then s.counter - 1 else 0)
    case Signal => At(s, w, Unlock)
    case Unlock => At(s, w, Done).(counterMutex := Free)
    case _ => s
  }

  predicate BeforeTable(p: WorkerPc) {
    p.Begin? || p.InitLock? || p.InitHeld? || p.Connect? || p.ConnectFailed? || p.Charset? || p.CharsetFailed?
  }

  predicate AtTable(p: WorkerPc) {
    p.Write? || p.WriteFailed? || p.CheckCode? || p.StoreCode?
  }

  function WorkerNext(s: State, w: nat, ok: bool): State
    requires w < |s.workers|
  {
    var pc := s.workers[w].pc;
    if BeforeTable(pc) then SessionNext(s, w, ok) else if AtTable(pc) then TableNext(s, w, ok) else LeaveNext(s, w)
  }

  // ----- runs ------------------------------------------------------------------------------------------------

  /** A step of the main thread or of a worker; `ok` is what the call it makes answers. */
  datatype Action = MainStep(ok: bool) | WorkerStep(w: nat, ok: bool)

  predicate Enabled(s: State, a: Action) {
    match a
    case MainStep(_) => MainEnabled(s)
    case WorkerStep(w, _) => WorkerEnabled(s, w)
  }

  function Next(c: Config, s: State, a: Action): State
    requires Enabled(s, a)
  {
    match a
    case MainStep(ok) => MainNext(c, s, ok)
    case WorkerStep(w, ok) => WorkerNext(s, w, ok)
  }

  /** The state after the actions, as long as each of them can be taken. */
  function Run(c: Config, s: State, actions: seq<Action>): State
    decreases |actions|
  {
    if actions == [] || !Enabled(s, actions[0]) then s else Run(c, Next(c, s, actions[0]), actions[1..])
  }

  // ----- the mutexes --------------------------------------------------------------------------------------------

  predicate MainHolds(m: MainPc) {
    m.Test? || m.Reserved? || m.Undo? || m.UndoUnlock? || m.FinalTest? || m.FinalUnlock?
  }

  predicate WorkerHolds(p: WorkerPc) {
    p.Decrement? || p.Signal? || p.Unlock?
  }

  /** The main thread has seen the counter at zero. */
  predicate Closing(m: MainPc) {
    m.FinalUnlock? || m.DestroyInit? || m.DestroyCounter? || m.DestroyCond? || m.Join?
  }

  /** A worker holds a mutex exactly in the places between locking and unlocking it. */
  predicate LockAt(s: State, w: nat) {
    && (s.counterMutex == Held(Thread(w)) <==> w < |s.workers| && WorkerHolds(s.workers[w].pc))
    && (s.initMutex == Held(Thread(w)) <==> w < |s.workers| && s.workers[w].pc.InitHeld?)
  }

  /** Who holds a mutex, and when it is gone. */
  ghost predicate Locks(s: State) {
    && (s.counterMutex == Held(Main) <==> MainHolds(s.main))
    && s.initMutex != Held(Main)
    && (s.initMutex == Destroyed <==> s.main.DestroyCounter? || s.main.DestroyCond? || s.main.Join?)
    && (s.counterMutex == Destroyed <==> s.main.DestroyCond? || s.main.Join?)
    && (s.condAlive <==> !s.main.Join?)
    && (forall w: nat :: LockAt(s, w))
  }

  /** Once the counter has been seen at zero, every worker is through. */
  ghost predicate Quiet(s: State) {
    Closing(s.main) ==> s.counter == 0 && forall w | 0 <= w < |s.workers| :: s.workers[w].pc.Done?
  }

  // ----- the slots ------------------------------------------------------------------------------------------------

  /** The worker has a slot that it has not given back. */
  predicate HasSlot(p: WorkerPc) {
    !(p.Signal? || p.Unlock? || p.Done?)
  }

  function WorkerSlots(ws: seq<Worker>): nat {
    if ws == [] then 0 else WorkerSlots(ws[..|ws| - 1]) + (if HasSlot(ws[|ws| - 1].pc) then 1 else 0)
  }

  /** The slots reserved and not released. */
  function Slots(s: State): nat {
    WorkerSlots(s.workers) + (if (s.main.Reserved? || s.main.Create? || s.main.UndoLock? || s.main.Undo?) then 1 else 0)
  }

  lemma {:induction false} SlotsAfterUpdate(ws: seq<Worker>, w: nat, x: Worker)
    requires w < |ws|
    ensures WorkerSlots(ws[w := x]) - (if HasSlot(x.pc) then 1 else 0) == WorkerSlots(ws) - (if HasSlot(ws[w].pc) then 1 else 0)
  {
    var n := |ws| - 1;
    if w == n {
      assert ws[w := x][..n] == ws[..n];
    } else {
      assert ws[w := x][..n] == ws[..n][w := x];
      SlotsAfterUpdate(ws[..n], w, x);
    }
  }

  lemma {:induction false} NoSlotsLeft(ws: seq<Worker>)
    requires WorkerSlots(ws) == 0
    ensures forall w | 0 <= w < |ws| :: !HasSlot(ws[w].pc)
  {
    if ws != [] { NoSlotsLeft(ws[..|ws| - 1]); }
  }

  lemma {:induction false} SomeSlot(ws: seq<Worker>, w: nat)
    requires w < |ws| && HasSlot(ws[w].pc)
    ensures WorkerSlots(ws) > 0
  {
    if w < |ws| - 1 { SomeSlot(ws[..|ws| - 1], w); }
  }

  lemma SlotsAfterAppend(ws: seq<Worker>, x: Worker)
    ensures WorkerSlots(ws + [x]) == WorkerSlots(ws) + if HasSlot(x.pc) then 1 else 0
  {
    assert (ws + [x])[..|ws|] == ws;
  }

  /** The counter counts the slots, and there are never too many. */
  ghost predicate Counted(c: Config, s: State) {
    s.counter == Slots(s) <= c.useThreads
  }

  // ----- what every step keeps: locks, counter, quiet ------------------------------------------------------------

  ghost predicate Safe(c: Config, s: State) {
    Locks(s) && Quiet(s) && Counted(c, s)
  }

  lemma LoopKeepsLocks(c: Config, s: State, ok: bool)
    requires Safe(c, s) && MainEnabled(s) && InLoop(s.main)
    ensures Locks(LoopNext(c, s, ok))
  {
    forall v: nat ensures LockAt(LoopNext(c, s, ok), v) {
      assert LockAt(s, v);
    }
  }

  lemma FinalKeepsLocks(c: Config, s: State)
    requires Safe(c, s) && MainEnabled(s) && !InLoop(s.main)
    ensures Locks(FinalNext(s))
  {
    forall v: nat ensures LockAt(FinalNext(s), v) {
      assert LockAt(s, v);
    }
  }

  lemma InitKeepsLocks(c: Config, s: State, w: nat, ok: bool)
    requires Safe(c, s) && WorkerEnabled(s, w) && (s.workers[w].pc.InitLock? || s.workers[w].pc.InitHeld?)
    ensures Locks(SessionNext(s, w, ok))
  {
    assert LockAt(s, w);
    forall v: nat ensures LockAt(SessionNext(s, w, ok), v) {
      assert LockAt(s, v);
    }
  }

  lemma SessionKeepsLocks(c: Config, s: State, w: nat, ok: bool)
    requires Safe(c, s) && WorkerEnabled(s, w) && BeforeTable(s.workers[w].pc)
    requires !s.workers[w].pc.InitLock? && !s.workers[w].pc.InitHeld?
    ensures Locks(SessionNext(s, w, ok))
  {
    forall v: nat ensures LockAt(SessionNext(s, w, ok), v) {
      assert LockAt(s, v);
    }
  }

  lemma TableKeepsLocks(c: Config, s: State, w: nat, ok: bool)
    requires Safe(c, s) && WorkerEnabled(s, w) && AtTable(s.workers[w].pc)
    ensures Locks(TableNext(s, w, ok))
  {
    forall v: nat ensures LockAt(TableNext(s, w, ok), v) {
      assert LockAt(s, v);
    }
  }

  lemma LeaveTakesLock(c: Config, s: State, w: nat)
    requires Safe(c, s) && WorkerEnabled(s, w) && s.workers[w].pc.Leave?
    ensures Locks(LeaveNext(s, w))
  {
    forall v: nat ensures LockAt(LeaveNext(s, w), v) {
      assert LockAt(s, v);
    }
  }

  lemma LeaveHoldsLock(c: Config, s: State, w: nat)
    requires Safe(c, s) && WorkerEnabled(s, w) && (s.workers[w].pc.Decrement? || s.workers[w].pc.Signal?)
    ensures Locks(LeaveNext(s, w))
  {
    forall v: nat ensures LockAt(LeaveNext(s, w), v) {
      assert LockAt(s, v);
    }
  }

  lemma LeaveGivesLock(c: Config, s: State, w: nat)
    requires Safe(c, s) && WorkerEnabled(s, w) && s.workers[w].pc.Unlock?
    ensures Locks(LeaveNext(s, w))
  {
    assert LockAt(s, w);
    forall v: nat ensures LockAt(LeaveNext(s, w), v) {
      assert LockAt(s, v);
    }
  }

  lemma CreateKeepsCount(c: Config, s: State, ok: bool)
    requires Safe(c, s) && s.main.Create?
    ensures Counted(c, LoopNext(c, s, ok)) && Quiet(LoopNext(c, s, ok))
  {
    SlotsAfterAppend(s.workers, Worker(s.next, Begin));
  }

  lemma TestKeepsCount(c: Config, s: State, ok: bool)
    requires Safe(c, s) && s.main.Test?
    ensures Counted(c, LoopNext(c, s, ok)) && Quiet(LoopNext(c, s, ok))
  {
  }

  lemma ReservingKeepsCount(c: Config, s: State, ok: bool)
    requires Safe(c, s) && Reserving(s.main) && !s.main.Test?
    ensures Counted(c, LoopNext(c, s, ok)) && Quiet(LoopNext(c, s, ok))
  {
    assert LoopNext(c, s, ok).workers == s.workers;
  }

  lemma UndoKeepsCount(c: Config, s: State, ok: bool)
    requires Safe(c, s) && InLoop(s.main) && !Reserving(s.main) && !s.main.Create?
    ensures Counted(c, LoopNext(c, s, ok)) && Quiet(LoopNext(c, s, ok))
  {
    assert LoopNext(c, s, ok).workers == s.workers;
  }

  lemma FinalKeepsCount(c: Config, s: State)
    requires Safe(c, s) && MainEnabled(s) && !InLoop(s.main)
    ensures Counted(c, FinalNext(s)) && Quiet(FinalNext(s))
  {
    if s.main.FinalTest? && s.counter == 0 {
      NoSlotsLeft(s.workers);
      forall w | 0 <= w < |s.workers| ensures s.workers[w].pc.Done? {
        assert LockAt(s, w);
      }
    }
  }

  /** A worker's step moves that worker only, and it keeps its slot until it decrements the counter. */
  ghost predicate Moves(s: State, w: nat, n: State)
    requires w < |s.workers|
  {
    && n.main == s.main && n.next == s.next && n.joins == s.joins && |n.workers| == |s.workers|
    && n.workers == s.workers[w := n.workers[w]] && n.workers[w].table == s.workers[w].table
    && n.counter == (if s.workers[w].pc.Decrement? && s.counter > 0 then s.counter - 1 else s.counter)
    && (HasSlot(n.workers[w].pc) <==> HasSlot(s.workers[w].pc) && !s.workers[w].pc.Decrement?)
  }

  lemma SessionMoves(s: State, w: nat, ok: bool)
    requires w < |s.workers| && BeforeTable(s.workers[w].pc)
    ensures Moves(s, w, SessionNext(s, w, ok))
  {
  }

  lemma TableMoves(s: State, w: nat, ok: bool)
    requires w < |s.workers| && AtTable(s.workers[w].pc)
    ensures Moves(s, w, TableNext(s, w, ok))
  {
  }

  lemma LeaveMoves(s: State, w: nat)
    requires w < |s.workers| && !BeforeTable(s.workers[w].pc) && !AtTable(s.workers[w].pc)
    ensures Moves(s, w, LeaveNext(s, w))
  {
  }

  lemma WorkerMoves(s: State, w: nat, ok: bool)
    requires w < |s.workers|
    ensures Moves(s, w, WorkerNext(s, w, ok))
  {
    if BeforeTable(s.workers[w].pc) {
      SessionMoves(s, w, ok);
    } else if AtTable(s.workers[w].pc) {
      TableMoves(s, w, ok);
    } else {
      LeaveMoves(s, w);
    }
  }

  lemma WorkerKeepsCount(c: Config, s: State, w: nat, ok: bool)
    requires Safe(c, s) && WorkerEnabled(s, w)
    ensures Counted(c, WorkerNext(s, w, ok)) && Quiet(WorkerNext(s, w, ok))
  {
    var n := WorkerNext(s, w, ok);
    WorkerMoves(s, w, ok);
    SlotsAfterUpdate(s.workers, w, n.workers[w]);
    if HasSlot(s.workers[w].pc) { SomeSlot(s.workers, w); }
  }

  lemma StepSafe(c: Config, s: State, a: Action)
    requires Safe(c, s) && Enabled(s, a)
    ensures Safe(c, Next(c, s, a))
  {
    match a
    case MainStep(ok) =>
      if InLoop(s.main) {
        LoopKeepsLocks(c, s, ok);
        if s.main.Create? {
          CreateKeepsCount(c, s, ok);
        } else if s.main.Test? {
          TestKeepsCount(c, s, ok);
        } else if Reserving(s.main) {
          ReservingKeepsCount(c, s, ok);
        } else {
          UndoKeepsCount(c, s, ok);
        }
      } else {
        FinalKeepsLocks(c, s);
        FinalKeepsCount(c, s);
      }
    case WorkerStep(w, ok) =>
      WorkerKeepsCount(c, s, w, ok);
      if s.workers[w].pc.InitLock? || s.workers[w].pc.InitHeld? {
        InitKeepsLocks(c, s, w, ok);
      } else if BeforeTable(s.workers[w].pc) {
        SessionKeepsLocks(c, s, w, ok);
      } else if AtTable(s.workers[w].pc) {
        TableKeepsLocks(c, s, w, ok);
      } else if s.workers[w].pc.Leave? {
        LeaveTakesLock(c, s, w);
      } else if s.workers[w].pc.Unlock? {
        LeaveGivesLock(c, s, w);
      } else {
        LeaveHoldsLock(c, s, w);
      }
  }

  lemma {:induction false} RunSafe(c: Config, s: State, actions: seq<Action>)
    requires Safe(c, s)
    ensures Safe(c, Run(c, s, actions))
    decreases |actions|
  {
    if actions != [] && Enabled(s, actions[0]) {
      StepSafe(c, s, actions[0]);
      RunSafe(c, Next(c, s, actions[0]), actions[1..]);
    }
  }

  lemma InitSafe(c: Config, force: bool)
    ensures Safe(c, Init(force))
  {
  }

  /**
   In every interleaving: the counter is the number of slots reserved and not yet
   released, and it never exceeds the limit; and once a mutex or the condition
   variable is destroyed, every worker is past its last use of any of them.
   */
  lemma LimitKept(c: Config, force: bool, actions: seq<Action>)
    ensures var s := Run(c, Init(force), actions);
            && s.counter == Slots(s) <= c.useThreads
            && (s.initMutex.Destroyed? || s.counterMutex.Destroyed? || !s.condAlive ==>
                  forall w | 0 <= w < |s.workers| :: s.workers[w].pc.Done?)
  {
    InitSafe(c, force);
    RunSafe(c, Init(force), actions);
  }
}
