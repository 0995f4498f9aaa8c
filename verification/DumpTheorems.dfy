/**
 One commit point per dump: with --single-transaction or --lock-all-tables every
 table is read at the same point of the commit log, the coordinates written are
 those of that point, and no other mode promises it.
 */
module DumpTheorems {
  import opened Wrappers
  import opened DumpProtocol

  // ----- running in parts --------------------------------------------------------------------------

  lemma {:induction false} RunAppend(env: Others, s: Server, a: seq<Command>, b: seq<Command>)
    ensures Run(env, s, a + b) == Run(env, Run(env, s, a), b)
    decreases |a|
  {
    if a == [] {
      assert a + b == b;
    } else {
      assert (a + b)[1..] == a[1..] + b;
      RunAppend(env, Step(env, s, a[0]), a[1..], b);
    }
  }

  function StepWhen(env: Others, s: Server, b: bool, command: Command): Server {
    if b then Step(env, s, command) else s
  }

  lemma RunWhen(env: Others, s: Server, a: seq<Command>, b: bool, command: Command)
    ensures Run(env, s, a + When(b, command)) == StepWhen(env, Run(env, s, a), b, command)
  {
    RunAppend(env, s, a, When(b, command));
    var t := Run(env, s, a);
    assert Run(env, t, [command]) == Step(env, t, command) by {
      assert [command][1..] == [];
    }
  }

  lemma {:induction false} InterfereKeeps(s: Server, commits: seq<Commit>)
    ensures var t := Interfere(s, commits);
            && t == s.(log := t.log) && |s.log| <= |t.log| && t.log[..|s.log|] == s.log
            && (s.readLock ==> t == s)
            && (!s.slaveRunning ==> SlaveCommits(t.log) == SlaveCommits(s.log))
    decreases |commits|
  {
    if commits == [] {
      assert s.log[..|s.log|] == s.log;
    } else {
      var u := if Allowed(s, commits[0]) then s.(log := s.log + [commits[0]]) else s;
      assert u.log[..|s.log|] == s.log;
      InterfereKeeps(u, commits[1..]);
      var t := Interfere(u, commits[1..]);
      assert t.log[..|s.log|] == t.log[..|u.log|][..|s.log|];
    }
  }

  // ----- everything at one point ---------------------------------------------------------------------

  /** The state is pinned to a point: by the global lock, or by a snapshot taken there. */
  ghost predicate Pinned(s: Server, p: nat) {
    || (s.readLock && s.snapshot.None? && |s.log| == p)
    || (s.snapshot == Some(p) && p <= |s.log| && s.lockedDb.None?)
  }

  /** Everything looked at so far was looked at at that point. */
  ghost predicate AllAt(s: Server, p: nat) {
    && p <= |s.log|
    && (forall r | r in s.seen :: r.point == p)
    && (s.gtids.Some? ==> s.gtids.value == p)
    && (s.master.Some? ==> s.master.value == p)
    && (s.slave.Some? ==> s.slave.value == SlaveCommits(s.log[..p]))
  }

  /** Pinned, and nothing has moved that the lock or the stopped replication holds still. */
  ghost predicate Ready(s: Server, p: nat) {
    && Pinned(s, p) && AllAt(s, p)
    && (s.readLock ==> |s.log| == p)
    && (!s.slaveRunning ==> SlaveCommits(s.log) == SlaveCommits(s.log[..p]))
  }

  lemma InterfereReady(s: Server, commits: seq<Commit>, p: nat)
    requires Ready(s, p)
    ensures Ready(Interfere(s, commits), p)
  {
    InterfereKeeps(s, commits);
    var u := Interfere(s, commits);
    assert u.log[..p] == u.log[..|s.log|][..p] == s.log[..p];
  }

  /** The commands that may follow once the point is fixed, and what each needs. */
  predicate Harmless(s: Server, c: Command) {
    match c
    case Savepoint => true
    case RollbackToSavepoint => true
    case ReleaseSavepoint => true
    case ReadTable(_, _) => true
    case StartSlave => true
    case ReadGtids => s.readLock
    case ShowMaster => s.readLock
    case ShowSlave => !s.slaveRunning
    case UnlockTables => s.snapshot.Some?
    case _ => false
  }

  lemma HarmlessStep(env: Others, s: Server, c: Command, p: nat)
    requires Harmless(s, c) && Ready(s, p)
    ensures var t := Step(env, s, c);
            && Ready(t, p) && t.snapshot == s.snapshot
            && (!c.UnlockTables? ==> t.readLock == s.readLock) && (!c.StartSlave? ==> t.slaveRunning == s.slaveRunning)
  {
    InterfereKeeps(s, env(s.clock));
    InterfereReady(s, env(s.clock), p);
  }

  /** The commands of the dumping phase need nothing. */
  predicate Plain(c: Command) {
    c.Savepoint? || c.RollbackToSavepoint? || c.ReleaseSavepoint? || c.ReadTable?
  }

  lemma {:induction false} PlainRun(env: Others, s: Server, commands: seq<Command>, p: nat)
    requires forall c | c in commands :: Plain(c)
    requires Ready(s, p)
    ensures var t := Run(env, s, commands);
            Ready(t, p) && t.readLock == s.readLock && t.slaveRunning == s.slaveRunning && t.snapshot == s.snapshot
    decreases |commands|
  {
    if commands != [] {
      assert commands[0] in commands;
      HarmlessStep(env, s, commands[0], p);
      PlainRun(env, Step(env, s, commands[0]), commands[1..], p);
    }
  }

  predicate Consistent(o: Options) {
    o.singleTransaction || o.lockAllTables
  }

  lemma {:induction false} TablesPlain(o: Options, db: string, tables: seq<string>)
    ensures forall c | c in Tables(o, db, tables) :: Plain(c)
  {
    if tables != [] { TablesPlain(o, db, tables[1..]); }
  }

  /** No per-database flush, lock or unlock is left in the consistent modes. */
  lemma {:induction false} DatabasesPlain(o: Options, gtid: bool, dbs: seq<Database>)
    requires Normalise(o) == Some(o) && Consistent(o)
    ensures forall c | c in Databases(o, gtid, dbs) :: Plain(c)
  {
    if dbs != [] {
      TablesPlain(o, dbs[0].name, dbs[0].tables);
      DatabasesPlain(o, gtid, dbs[1..]);
    }
  }

  // ----- the opening ------------------------------------------------------------------------------------

  lemma StepFacts(env: Others, s: Server, c: Command)
    ensures var t := Step(env, s, c);
            var u := Interfere(s, env(s.clock));
            && t.log == u.log && |s.log| <= |t.log| && (s.readLock ==> t.log == s.log)
            && t == Execute(s.(log := u.log, clock := s.clock + 1), c)
  {
    hide Interfere, SlaveCommits;
    InterfereKeeps(s, env(s.clock));
  }

  lemma OpeningFixesPoint(env: Others, o: Options, gtid: bool, log: seq<Commit>, slaveRunning: bool)
    requires Normalise(o) == Some(o) && Consistent(o)
    ensures var t := Run(env, Start(log, slaveRunning), Opening(o, gtid));
            && Ready(t, |t.log|)
            && t.readLock == TakesReadLock(o, gtid) && (t.snapshot.Some? == o.singleTransaction)
            && t.gtids.None? && t.master.None? && t.slave.None? && t.seen == []
            && (o.slaveData != 0 ==> !t.slaveRunning)
  {
    OpeningSteps(env, Start(log, slaveRunning), o, gtid);
    var lock := TakesReadLock(o, gtid);
    var s0 := Start(log, slaveRunning);
    var s1 := StepWhen(env, s0, o.slaveData != 0, StopSlave);
    var s2 := StepWhen(env, s1, lock, FlushTables);
    var s3 := StepWhen(env, s2, lock, ReadLock);
    var s4 := StepWhen(env, s3, FlushesFirst(o, gtid), FlushLogs);
    var s5 := StepWhen(env, s4, o.singleTransaction, StartTransaction);
    StepFacts(env, s0, StopSlave);
    StepFacts(env, s1, FlushTables);
    StepFacts(env, s2, ReadLock);
    StepFacts(env, s3, FlushLogs);
    StepFacts(env, s4, StartTransaction);
    assert s5.log[..|s5.log|] == s5.log;
  }

  lemma OpeningSteps(env: Others, s: Server, o: Options, gtid: bool)
    ensures var lock := TakesReadLock(o, gtid);
            var s1 := StepWhen(env, s, o.slaveData != 0, StopSlave);
            var s2 := StepWhen(env, s1, lock, FlushTables);
            var s3 := StepWhen(env, s2, lock, ReadLock);
            var s4 := StepWhen(env, s3, FlushesFirst(o, gtid), FlushLogs);
            Run(env, s, Opening(o, gtid)) == StepWhen(env, s4, o.singleTransaction, StartTransaction)
  {
    var lock := TakesReadLock(o, gtid);
    var c1 := When(o.slaveData != 0, StopSlave);
    var c2 := c1 + When(lock, FlushTables);
    var c3 := c2 + When(lock, ReadLock);
    assert [] + c1 == c1;
    RunWhen(env, s, [], o.slaveData != 0, StopSlave);
    RunWhen(env, s, c1, lock, FlushTables);
    RunWhen(env, s, c2, lock, ReadLock);
    RunWhen(env, s, c3, FlushesFirst(o, gtid), FlushLogs);
    RunWhen(env, s, c3 + When(FlushesFirst(o, gtid), FlushLogs), o.singleTransaction, StartTransaction);
  }

  // ----- the rest of the dump ---------------------------------------------------------------------------

  lemma CoordinatesReady(env: Others, o: Options, gtid: bool, s: Server, p: nat)
    requires Normalise(o) == Some(o) && Consistent(o) && Ready(s, p)
    requires s.readLock == TakesReadLock(o, gtid) && (s.snapshot.Some? == o.singleTransaction)
    requires o.slaveData != 0 ==> !s.slaveRunning
    ensures var t := Run(env, s, Coordinates(o, gtid));
            Ready(t, p) && (o.lockAllTables ==> t.readLock) && t.snapshot == s.snapshot
  {
    var g, m, v, u := SingleWithGtid(o, gtid), o.masterData != 0, o.slaveData != 0, o.singleTransaction;
    var c1 := When(g, ReadGtids);
    var c2 := c1 + When(m, ShowMaster);
    var c3 := c2 + When(v, ShowSlave);
    var s1 := StepWhen(env, s, g, ReadGtids);
    var s2 := StepWhen(env, s1, m, ShowMaster);
    var s3 := StepWhen(env, s2, v, ShowSlave);
    assert [] + c1 == c1;
    RunWhen(env, s, [], g, ReadGtids);
    RunWhen(env, s, c1, m, ShowMaster);
    RunWhen(env, s, c2, v, ShowSlave);
    RunWhen(env, s, c3, u, UnlockTables);
    if g { HarmlessStep(env, s, ReadGtids, p); }
    if m { HarmlessStep(env, s1, ShowMaster, p); }
    if v { HarmlessStep(env, s2, ShowSlave, p); }
    if u { HarmlessStep(env, s3, UnlockTables, p); }
  }

  lemma ClosingReady(env: Others, o: Options, gtid: bool, s: Server, p: nat)
    requires Normalise(o) == Some(o) && Consistent(o) && Ready(s, p)
    requires o.lockAllTables ==> s.readLock
    ensures Ready(Run(env, s, Closing(o, gtid)), p)
  {
    var v, g := o.slaveData != 0, gtid && o.gtidPurged != Off && !SingleWithGtid(o, gtid);
    var s1 := StepWhen(env, s, v, StartSlave);
    assert [] + When(v, StartSlave) == When(v, StartSlave);
    RunWhen(env, s, [], v, StartSlave);
    RunWhen(env, s, When(v, StartSlave), g, ReadGtids);
    if v { HarmlessStep(env, s, StartSlave, p); }
    if g { HarmlessStep(env, s1, ReadGtids, p); }
  }

  /**
   For every accepted set of options with one of the two consistent modes, asked
   for or implied, and whatever other sessions commit in between: all tables are
   read at one commit point, and every coordinate written is of that point.
   */
  lemma OnePoint(env: Others, log: seq<Commit>, slaveRunning: bool, raw: Options, gtid: bool, dbs: seq<Database>)
    requires Normalise(raw).Some? && Consistent(Normalise(raw).value)
    ensures exists p: nat :: AllAt(Dump(env, log, slaveRunning, Normalise(raw).value, gtid, dbs), p)
  {
    var o := Normalise(raw).value;
    assert Normalise(o) == Some(o);
    var s0 := Start(log, slaveRunning);
    var rest := Databases(o, gtid, dbs) + Closing(o, gtid);
    var s1 := Run(env, s0, Opening(o, gtid));
    var p := |s1.log|;
    OpeningFixesPoint(env, o, gtid, log, slaveRunning);
    RunAppend(env, s0, Opening(o, gtid), Coordinates(o, gtid) + rest);
    CoordinatesReady(env, o, gtid, s1, p);
    RunAppend(env, s1, Coordinates(o, gtid), rest);
    var s2 := Run(env, s1, Coordinates(o, gtid));
    DatabasesPlain(o, gtid, dbs);
    PlainRun(env, s2, Databases(o, gtid, dbs), p);
    RunAppend(env, s2, Databases(o, gtid, dbs), Closing(o, gtid));
    ClosingReady(env, o, gtid, Run(env, s2, Databases(o, gtid, dbs)), p);
    assert AllAt(Dump(env, log, slaveRunning, o, gtid, dbs), p);
  }

  // ----- every table is there ------------------------------------------------------------------------------

  function Names(seen: seq<Read>): seq<(string, string)> {
    seq(|seen|, i requires 0 <= i < |seen| => (seen[i].db, seen[i].table))
  }

  function Reading(commands: seq<Command>): seq<(string, string)> {
    if commands == [] then []
    else (if commands[0].ReadTable? then [(commands[0].db, commands[0].table)] else []) + Reading(commands[1..])
  }

  lemma StepReads(env: Others, s: Server, c: Command)
    ensures var t := Step(env, s, c);
            && Names(t.seen) == Names(s.seen) + (if c.ReadTable? then [(c.db, c.table)] else [])
            && (t.gtids.Some? <==> s.gtids.Some? || c == ReadGtids)
            && (t.master.Some? <==> s.master.Some? || c == ShowMaster)
            && (t.slave.Some? <==> s.slave.Some? || c == ShowSlave)
  {
    hide Interfere, SlaveCommits;
    InterfereKeeps(s, env(s.clock));
  }

  lemma {:induction false} RunReads(env: Others, s: Server, commands: seq<Command>)
    ensures Names(Run(env, s, commands).seen) == Names(s.seen) + Reading(commands)
    decreases |commands|
  {
    hide Names, Step;
    if commands == [] {
      assert Names(s.seen) + [] == Names(s.seen);
    } else {
      var first := if commands[0].ReadTable? then [(commands[0].db, commands[0].table)] else [];
      StepReads(env, s, commands[0]);
      RunReads(env, Step(env, s, commands[0]), commands[1..]);
      assert Names(s.seen) + first + Reading(commands[1..]) == Names(s.seen) + Reading(commands);
    }
  }

  lemma {:induction false} RunAsks(env: Others, s: Server, commands: seq<Command>)
    ensures var t := Run(env, s, commands);
            && (t.gtids.Some? <==> s.gtids.Some? || ReadGtids in commands)
            && (t.master.Some? <==> s.master.Some? || ShowMaster in commands)
            && (t.slave.Some? <==> s.slave.Some? || ShowSlave in commands)
    decreases |commands|
  {
    hide Names, Step;
    if commands != [] {
      StepReads(env, s, commands[0]);
      assert commands == [commands[0]] + commands[1..];
      RunAsks(env, Step(env, s, commands[0]), commands[1..]);
    }
  }

  lemma {:induction false} ReadingAppend(a: seq<Command>, b: seq<Command>)
    ensures Reading(a + b) == Reading(a) + Reading(b)
    decreases |a|
  {
    if a == [] {
      assert a + b == b;
    } else {
      assert (a + b)[1..] == a[1..] + b && (a + b)[0] == a[0];
      ReadingAppend(a[1..], b);
      var first := if a[0].ReadTable? then [(a[0].db, a[0].table)] else [];
      assert first + (Reading(a[1..]) + Reading(b)) == first + Reading(a[1..]) + Reading(b);
    }
  }

  lemma ReadingWhen(a: seq<Command>, b: bool, c: Command)
    requires !c.ReadTable?
    ensures Reading(a + When(b, c)) == Reading(a)
  {
    ReadingAppend(a, When(b, c));
    assert Reading(When(b, c)) == [] by { assert [c][1..] == []; }
  }

  function TablesOf(db: string, tables: seq<string>): seq<(string, string)> {
    seq(|tables|, i requires 0 <= i < |tables| => (db, tables[i]))
  }

  function AllTables(dbs: seq<Database>): seq<(string, string)> {
    if dbs == [] then [] else TablesOf(dbs[0].name, dbs[0].tables) + AllTables(dbs[1..])
  }

  lemma {:induction false} TablesReading(o: Options, db: string, tables: seq<string>)
    ensures Reading(Tables(o, db, tables)) == TablesOf(db, tables)
  {
    if tables != [] {
      var head := [ReadTable(db, tables[0])];
      TablesReading(o, db, tables[1..]);
      ReadingAppend(head + When(o.singleTransaction, RollbackToSavepoint), Tables(o, db, tables[1..]));
      ReadingWhen(head, o.singleTransaction, RollbackToSavepoint);
      assert Reading(head) == [(db, tables[0])] by { assert head[1..] == []; }
      assert TablesOf(db, tables) == [(db, tables[0])] + TablesOf(db, tables[1..]);
    }
  }

  lemma OneDatabaseReading(o: Options, gtid: bool, d: Database)
    ensures Reading(OneDatabase(o, gtid, d)) == TablesOf(d.name, d.tables)
  {
    hide Reading, When, Tables, TablesOf;
    var locks := o.lockTables && d.tables != [];
    var c1 := When(locks, LockTables(d.name));
    var c2 := c1 + When(FlushesPerDatabase(o, gtid), FlushLogs);
    var c3 := c2 + When(o.singleTransaction, Savepoint);
    var c4 := c3 + Tables(o, d.name, d.tables);
    assert [] + c1 == c1;
    NothingRead([]);
    ReadingWhen([], locks, LockTables(d.name));
    ReadingWhen(c1, FlushesPerDatabase(o, gtid), FlushLogs);
    ReadingWhen(c2, o.singleTransaction, Savepoint);
    ReadingAppend(c3, Tables(o, d.name, d.tables));
    TablesReading(o, d.name, d.tables);
    ReadingWhen(c4, o.singleTransaction, ReleaseSavepoint);
    ReadingWhen(c4 + When(o.singleTransaction, ReleaseSavepoint), o.lockTables, UnlockTables);
    assert [] + TablesOf(d.name, d.tables) == TablesOf(d.name, d.tables);
  }

  lemma {:induction false} DatabasesReading(o: Options, gtid: bool, dbs: seq<Database>)
    ensures Reading(Databases(o, gtid, dbs)) == AllTables(dbs)
  {
    hide Reading, OneDatabase, TablesOf;
    if dbs == [] {
      NothingRead([]);
    } else {
      OneDatabaseReading(o, gtid, dbs[0]);
      ReadingAppend(OneDatabase(o, gtid, dbs[0]), Databases(o, gtid, dbs[1..]));
      DatabasesReading(o, gtid, dbs[1..]);
    }
  }

  lemma ScriptReading(o: Options, gtid: bool, dbs: seq<Database>)
    ensures Reading(Script(o, gtid, dbs)) == AllTables(dbs)
  {
    var opening, coordinates, closing := Opening(o, gtid), Coordinates(o, gtid), Closing(o, gtid);
    NothingRead(opening);
    NothingRead(coordinates);
    NothingRead(closing);
    DatabasesReading(o, gtid, dbs);
    ReadingAppend(Databases(o, gtid, dbs), closing);
    ReadingAppend(coordinates, Databases(o, gtid, dbs) + closing);
    ReadingAppend(opening, coordinates + (Databases(o, gtid, dbs) + closing));
  }

  lemma {:induction false} NothingRead(commands: seq<Command>)
    requires forall c | c in commands :: !c.ReadTable?
    ensures Reading(commands) == []
  {
    if commands != [] {
      assert commands[0] in commands;
      NothingRead(commands[1..]);
    }
  }

  /** A dump reads every table of every database exactly once, in order, in every mode. */
  lemma DumpReadsAllTables(env: Others, log: seq<Commit>, slaveRunning: bool, o: Options, gtid: bool, dbs: seq<Database>)
    ensures Names(Dump(env, log, slaveRunning, o, gtid, dbs).seen) == AllTables(dbs)
  {
    RunReads(env, Start(log, slaveRunning), Script(o, gtid, dbs));
    ScriptReading(o, gtid, dbs);
    assert Names([]) == [];
  }

  predicate AsksForCoordinates(c: Command) {
    c == ReadGtids || c == ShowMaster || c == ShowSlave
  }

  lemma {:induction false} TablesAskNothing(o: Options, db: string, tables: seq<string>)
    ensures forall c | c in Tables(o, db, tables) :: !AsksForCoordinates(c)
  {
    if tables != [] { TablesAskNothing(o, db, tables[1..]); }
  }

  lemma {:induction false} DatabasesAskNothing(o: Options, gtid: bool, dbs: seq<Database>)
    ensures forall c | c in Databases(o, gtid, dbs) :: !AsksForCoordinates(c)
  {
    if dbs != [] {
      TablesAskNothing(o, dbs[0].name, dbs[0].tables);
      DatabasesAskNothing(o, gtid, dbs[1..]);
    }
  }

  lemma ScriptAsks(o: Options, gtid: bool, dbs: seq<Database>, c: Command)
    requires AsksForCoordinates(c)
    ensures c in Script(o, gtid, dbs) <==> c in Coordinates(o, gtid) || c in Closing(o, gtid)
  {
    hide Databases, Coordinates, Closing;
    DatabasesAskNothing(o, gtid, dbs);
    assert c !in Opening(o, gtid);
  }

  /** The coordinates that the options ask for are written, and no others. */
  lemma CoordinatesWritten(env: Others, log: seq<Commit>, slaveRunning: bool, o: Options, gtid: bool, dbs: seq<Database>)
    ensures var s := Dump(env, log, slaveRunning, o, gtid, dbs);
            && (s.gtids.Some? <==> gtid && o.gtidPurged != Off)
            && (s.master.Some? <==> o.masterData != 0)
            && (s.slave.Some? <==> o.slaveData != 0)
  {
    hide Run, Script;
    RunAsks(env, Start(log, slaveRunning), Script(o, gtid, dbs));
    ScriptAsks(o, gtid, dbs, ReadGtids);
    ScriptAsks(o, gtid, dbs, ShowMaster);
    ScriptAsks(o, gtid, dbs, ShowSlave);
    assert ReadGtids in Coordinates(o, gtid) <==> SingleWithGtid(o, gtid);
  }

  // ----- what a dump shows -------------------------------------------------------------------------------------

  /** What a read of a database shows when these commits have been made: those to it, in order. */
  function Shown(log: seq<Commit>, db: string): seq<Commit> {
    if log == [] then []
    else Shown(log[..|log| - 1], db) + if log[|log| - 1].db == db then [log[|log| - 1]] else []
  }

  /** The dump is one state of the server: everything read, and every coordinate, is as it was after `q` commits. */
  ghost predicate Explains(s: Server, q: nat) {
    && q <= |s.log|
    && (forall r | r in s.seen :: r.point <= |s.log| && Shown(s.log[..r.point], r.db) == Shown(s.log[..q], r.db))
    && (s.gtids.Some? ==> s.gtids.value <= |s.log| && forall r | r in s.seen :: Shown(s.log[..s.gtids.value], r.db) == Shown(s.log[..q], r.db))
    && (s.master.Some? ==> s.master.value <= |s.log| && forall r | r in s.seen :: Shown(s.log[..s.master.value], r.db) == Shown(s.log[..q], r.db))
    && (s.slave.Some? ==> s.slave.value == SlaveCommits(s.log[..q]))
  }

  /** Looking at everything at one point is enough. */
  lemma PointExplains(s: Server, p: nat)
    requires AllAt(s, p)
    ensures Explains(s, p)
  {
  }

  lemma ShownOne(log: seq<Commit>, c: Commit, db: string)
    ensures Shown(log + [c], db) == Shown(log, db) + if c.db == db then [c] else []
  {
    assert (log + [c])[..|log|] == log;
  }

  /** More commits show more, and strictly more if one of them is to the database. */
  lemma {:induction false} ShownGrows(log: seq<Commit>, p: nat, q: nat, db: string)
    requires p <= q <= |log|
    ensures |Shown(log[..p], db)| <= |Shown(log[..q], db)|
    ensures (exists i | p <= i < q :: log[i].db == db) ==> |Shown(log[..p], db)| < |Shown(log[..q], db)|
    decreases q - p
  {
    hide Shown;
    if p < q {
      assert log[..q] == log[..q - 1] + [log[q - 1]];
      ShownOne(log[..q - 1], log[q - 1], db);
      ShownGrows(log, p, q - 1, db);
    }
  }

  /** A commit to a database that was read before it, and then one to a database that was read after it. */
  ghost predicate Crossed(s: Server, i: nat) {
    && |s.seen| >= 2 && s.seen[0].point <= i && i + 2 <= s.seen[1].point <= |s.log|
    && s.log[i].db == s.seen[0].db && s.log[i + 1].db == s.seen[1].db
  }

  /** No single state shows the first read without the commit and the second read with the other. */
  lemma CrossedReads(s: Server, i: nat, q: nat)
    requires Crossed(s, i)
    ensures !Explains(s, q)
  {
    hide Shown;
    var a, b := s.seen[0], s.seen[1];
    assert a in s.seen && b in s.seen;
    if q <= |s.log| {
      if q <= i + 1 {
        ShownGrows(s.log, q, b.point, b.db);
        assert s.log[i + 1].db == b.db;
      } else {
        ShownGrows(s.log, a.point, q, a.db);
        assert s.log[i].db == a.db;
      }
    }
  }

  // ----- no other mode does it ---------------------------------------------------------------------------------

  /** Another session that writes to both databases all the time. */
  function Busy(): Others { n => [Commit("a", false), Commit("b", false)] }

  function TwoDatabases(): seq<Database> { [Database("a", ["t"]), Database("b", ["u"])] }

  /** Which of the two commits gets through. */
  function Through(s: Server, db: string): seq<Commit> {
    if s.lockedDb == Some(db) then [] else [Commit(db, false)]
  }

  lemma BusyStep(s: Server, c: Command)
    requires !s.readLock
    ensures Step(Busy(), s, c) == Execute(s.(log := s.log + Through(s, "a") + Through(s, "b"), clock := s.clock + 1), c)
  {
    hide Execute;
    var a, b := Commit("a", false), Commit("b", false);
    assert [a, b][1..] == [b] && [b][1..] == [];
    var u := s.(log := s.log + Through(s, "a"));
    assert Allowed(s, a) <==> s.lockedDb != Some("a");
    assert s.log + [] == s.log && u.log + [] == u.log;
    assert Interfere(s, [a, b]) == Interfere(u, [b]);
    assert Interfere(u, [b]) == u.(log := u.log + Through(s, "b"));
  }

  /** The commands for the two databases, one after the other. */
  function BusyDump(o: Options, gtid: bool): Server {
    var s1 := StepWhen(Busy(), Start([], false), o.lockTables, LockTables("a"));
    var s2 := StepWhen(Busy(), s1, FlushesPerDatabase(o, gtid), FlushLogs);
    var s3 := Step(Busy(), s2, ReadTable("a", "t"));
    var s4 := StepWhen(Busy(), s3, o.lockTables, UnlockTables);
    var s5 := StepWhen(Busy(), s4, o.lockTables, LockTables("b"));
    var s6 := StepWhen(Busy(), s5, FlushesPerDatabase(o, gtid), FlushLogs);
    Step(Busy(), s6, ReadTable("b", "u"))
  }

  lemma OneTable(o: Options, db: string, table: string)
    requires !o.singleTransaction
    ensures Tables(o, db, [table]) == [ReadTable(db, table)]
  {
    assert [table][1..] == [];
    assert [ReadTable(db, table)] + [] + [] == [ReadTable(db, table)];
  }

  lemma RunDatabase(o: Options, gtid: bool, s: Server, db: string, table: string)
    requires !o.singleTransaction
    ensures var s1 := StepWhen(Busy(), s, o.lockTables, LockTables(db));
            var s2 := StepWhen(Busy(), s1, FlushesPerDatabase(o, gtid), FlushLogs);
            Run(Busy(), s, OneDatabase(o, gtid, Database(db, [table]))) ==
            StepWhen(Busy(), Step(Busy(), s2, ReadTable(db, table)), o.lockTables, UnlockTables)
  {
    hide Step, Run, FlushesPerDatabase;
    var f := FlushesPerDatabase(o, gtid);
    var c1 := When(o.lockTables, LockTables(db));
    var c2 := c1 + When(f, FlushLogs);
    OneTable(o, db, table);
    assert [] + c1 == c1 && c2 + [] == c2;
    var c3 := c2 + When(true, ReadTable(db, table));
    assert OneDatabase(o, gtid, Database(db, [table])) == c3 + When(o.lockTables, UnlockTables) by {
      assert c3 + [] == c3;
    }
    RunNothing(s);
    RunWhen(Busy(), s, [], o.lockTables, LockTables(db));
    RunWhen(Busy(), s, c1, f, FlushLogs);
    RunWhen(Busy(), s, c2, true, ReadTable(db, table));
    RunWhen(Busy(), s, c3, o.lockTables, UnlockTables);
  }

  lemma RunNothing(s: Server)
    ensures Run(Busy(), s, []) == s
  {
  }

  /** What is left behind the second read changes neither the reads nor what was committed before them. */
  ghost predicate Continues(s: Server, t: Server) {
    t.seen == s.seen && |s.log| <= |t.log| && t.log[..|s.log|] == s.log
  }

  lemma StepContinues(env: Others, s: Server, b: bool, c: Command)
    requires !c.ReadTable?
    ensures Continues(s, StepWhen(env, s, b, c))
  {
    hide Interfere;
    InterfereKeeps(s, env(s.clock));
    assert s.log[..|s.log|] == s.log;
  }

  lemma CrossedContinues(s: Server, t: Server, i: nat)
    requires Crossed(s, i) && Continues(s, t)
    ensures Crossed(t, i)
  {
    assert s.log[i] == t.log[..|s.log|][i] && s.log[i + 1] == t.log[..|s.log|][i + 1];
  }

  lemma UnprotectedParts(o: Options, gtid: bool)
    requires Normalise(o) == Some(o) && !Consistent(o)
    ensures Opening(o, gtid) == [] && Coordinates(o, gtid) == [] && Closing(o, gtid) == When(gtid && o.gtidPurged != Off, ReadGtids)
  {
    NormalisedModes(o);
    assert !TakesReadLock(o, gtid) && !FlushesFirst(o, gtid);
    assert [] + When(gtid && o.gtidPurged != Off, ReadGtids) == When(gtid && o.gtidPurged != Off, ReadGtids);
  }

  lemma TwoParts(o: Options, gtid: bool, d: Database, e: Database)
    ensures Databases(o, gtid, [d, e]) == OneDatabase(o, gtid, d) + OneDatabase(o, gtid, e)
  {
    hide OneDatabase;
    assert [d, e][1..] == [e] && [e][1..] == [];
    assert Databases(o, gtid, [e]) == OneDatabase(o, gtid, e) + [] == OneDatabase(o, gtid, e);
  }

  lemma UnprotectedScript(o: Options, gtid: bool)
    requires Normalise(o) == Some(o) && !Consistent(o)
    ensures var env := Busy();
            var u := BusyDump(o, gtid);
            Continues(u, Dump(env, [], false, o, gtid, TwoDatabases()))
  {
    var s, env, dbs := Start([], false), Busy(), TwoDatabases();
    var one, two := OneDatabase(o, gtid, dbs[0]), OneDatabase(o, gtid, dbs[1]);
    var last := gtid && o.gtidPurged != Off;
    hide Step, Run, FlushesPerDatabase, OneDatabase, Opening, Coordinates, Closing, Databases;
    UnprotectedParts(o, gtid);
    assert dbs[1..] == [dbs[1]] && dbs[1..][1..] == [];
    assert Databases(o, gtid, dbs) == one + two by { TwoParts(o, gtid, dbs[0], dbs[1]); }
    assert Script(o, gtid, dbs) == (one + two) + When(last, ReadGtids) by {
      assert [] + ([] + ((one + two) + When(last, ReadGtids))) == (one + two) + When(last, ReadGtids);
    }
    RunWhen(env, s, one + two, last, ReadGtids);
    RunAppend(env, s, one, two);
    RunDatabase(o, gtid, s, "a", "t");
    RunDatabase(o, gtid, Run(env, s, one), "b", "u");
    var u := BusyDump(o, gtid);
    var v := StepWhen(env, u, o.lockTables, UnlockTables);
    assert Run(env, s, one + two) == v;
    StepContinues(env, u, o.lockTables, UnlockTables);
    StepContinues(env, v, last, ReadGtids);
    var w := StepWhen(env, v, last, ReadGtids);
    assert w.log[..|u.log|] == w.log[..|v.log|][..|u.log|];
  }

  /** Free of locks and snapshots, but for a lock on one database. */
  ghost predicate Exposed(s: Server, locked: Option<string>) {
    !s.readLock && s.snapshot.None? && s.lockedDb == locked
  }

  lemma BusyWhen(s: Server, b: bool, c: Command, locked: Option<string>)
    requires Exposed(s, locked) && (c.LockTables? || c.FlushLogs? || c.UnlockTables?)
    ensures var t := StepWhen(Busy(), s, b, c);
            && Exposed(t, if !b || c.FlushLogs? then locked else if c.LockTables? then Some(c.db) else None)
            && t.seen == s.seen && s.log <= t.log
            && (b && locked.None? ==> t.log == s.log + [Commit("a", false), Commit("b", false)])
  {
    hide Step;
    BusyStep(s, c);
    assert s.log + [Commit("a", false)] + [Commit("b", false)] == s.log + [Commit("a", false), Commit("b", false)];
  }

  lemma BusyRead(s: Server, db: string, table: string, locked: Option<string>)
    requires Exposed(s, locked)
    ensures var t := Step(Busy(), s, ReadTable(db, table));
            && Exposed(t, locked) && s.log <= t.log && t.seen == s.seen + [Read(db, table, |t.log|)]
            && (locked.None? ==> t.log == s.log + [Commit("a", false), Commit("b", false)])
  {
    hide Step;
    BusyStep(s, ReadTable(db, table));
    assert s.log + [Commit("a", false)] + [Commit("b", false)] == s.log + [Commit("a", false), Commit("b", false)];
  }

  /** Before the read of the second database there is a moment without locks, in which both commits get through. */
  lemma SecondRead(s: Server, lock: bool, flush: bool)
    requires Exposed(s, None)
    ensures var s5 := StepWhen(Busy(), s, lock, LockTables("b"));
            var s6 := StepWhen(Busy(), s5, flush, FlushLogs);
            var t := Step(Busy(), s6, ReadTable("b", "u"));
            s.log + [Commit("a", false), Commit("b", false)] <= t.log && t.seen == s.seen + [Read("b", "u", |t.log|)]
  {
    hide Step, StepWhen;
    var s5 := StepWhen(Busy(), s, lock, LockTables("b"));
    var s6 := StepWhen(Busy(), s5, flush, FlushLogs);
    var l := if lock then Some("b") else None;
    BusyWhen(s, lock, LockTables("b"), None);
    BusyWhen(s5, flush, FlushLogs, l);
    BusyRead(s6, "b", "u", l);
    SameWhen(s, LockTables("b"));
    SameWhen(s5, FlushLogs);
  }

  lemma SameWhen(s: Server, c: Command)
    ensures StepWhen(Busy(), s, false, c) == s
  {
  }

  lemma BusyCrosses(o: Options, gtid: bool)
    ensures exists i: nat :: Crossed(BusyDump(o, gtid), i)
  {
    hide Step, StepWhen, FlushesPerDatabase;
    var f, s0 := FlushesPerDatabase(o, gtid), Start([], false);
    var s1 := StepWhen(Busy(), s0, o.lockTables, LockTables("a"));
    var s2 := StepWhen(Busy(), s1, f, FlushLogs);
    var s3 := Step(Busy(), s2, ReadTable("a", "t"));
    var s4 := StepWhen(Busy(), s3, o.lockTables, UnlockTables);
    var l := if o.lockTables then Some("a") else None;
    BusyWhen(s0, o.lockTables, LockTables("a"), None);
    BusyWhen(s1, f, FlushLogs, l);
    BusyRead(s2, "a", "t", l);
    BusyWhen(s3, o.lockTables, UnlockTables, l);
    SecondRead(s4, o.lockTables, f);
    assert Crossed(BusyDump(o, gtid), |s4.log|);
  }

  /** Without one of the consistent modes, there are commits under which no state of the server is what the dump shows. */
  lemma TwoPoints(o: Options, gtid: bool, q: nat)
    requires Normalise(o) == Some(o) && !Consistent(o)
    ensures !Explains(Dump(Busy(), [], false, o, gtid, TwoDatabases()), q)
  {
    hide Explains, BusyDump, Crossed, Continues, Dump;
    BusyCrosses(o, gtid);
    UnprotectedScript(o, gtid);
    var u, d := BusyDump(o, gtid), Dump(Busy(), [], false, o, gtid, TwoDatabases());
    var i: nat :| Crossed(u, i);
    CrossedContinues(u, d, i);
    CrossedReads(d, i, q);
  }

  ghost predicate OneState(s: Server) {
    exists q: nat :: Explains(s, q)
  }

  /** Every dump with these options shows one state of the server, whatever others commit. */
  ghost predicate AlwaysOneState(o: Options, gtid: bool) {
    forall env: Others, log: seq<Commit>, slaveRunning: bool, dbs: seq<Database> ::
      OneState(Dump(env, log, slaveRunning, o, gtid, dbs))
  }

  /** Accepted options make every dump one state of the server if and only if they fix a snapshot or lock everything. */
  lemma OnePointIff(raw: Options, gtid: bool)
    requires Normalise(raw).Some?
    ensures AlwaysOneState(Normalise(raw).value, gtid) <==> Consistent(Normalise(raw).value)
  {
    hide Dump, Explains;
    var o := Normalise(raw).value;
    assert Normalise(o) == Some(o);
    if Consistent(o) {
      forall env: Others, log: seq<Commit>, slaveRunning: bool, dbs: seq<Database>
        ensures OneState(Dump(env, log, slaveRunning, o, gtid, dbs))
      {
        OnePoint(env, log, slaveRunning, raw, gtid, dbs);
        var s := Dump(env, log, slaveRunning, o, gtid, dbs);
        var p: nat :| AllAt(s, p);
        PointExplains(s, p);
      }
    } else {
      forall q: nat ensures !Explains(Dump(Busy(), [], false, o, gtid, TwoDatabases()), q) {
        TwoPoints(o, gtid, q);
      }
      assert !OneState(Dump(Busy(), [], false, o, gtid, TwoDatabases()));
    }
  }
}
