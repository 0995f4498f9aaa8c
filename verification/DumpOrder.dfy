/**
 Every command of a dump is sent when it makes sense: under which locks the tables, the
 logs and the coordinates are looked at, what blocks other sessions meanwhile, and what
 is left behind.
 */
module DumpOrder {
  import opened Wrappers
  import opened DumpProtocol
  import opened DumpTheorems

  type Table = (string, string)

  /**
   What the session of the dump holds: `tables` are those that other sessions cannot
   alter meanwhile, `savepoint` those that were held when the savepoint was set.
   */
  datatype Held = Held(
    readLock: bool, lockedDb: Option<string>, transaction: bool, slaveRunning: bool,
    tables: set<Table>, savepoint: Option<set<Table>>, tablesFlushed: bool, flushes: nat)

  function After(h: Held, c: Command): Held {
    match c
    case StopSlave => h.(slaveRunning := false)
    case StartSlave => h.(slaveRunning := true)
    case ReadLock => h.(readLock := true)
    case UnlockTables => h.(readLock := false, lockedDb := None)
    case FlushLogs => h.(flushes := h.flushes + 1, transaction := false, tables := {}, savepoint := None)
    case StartTransaction => h.(transaction := true, lockedDb := None)
    case LockTables(db) => h.(lockedDb := Some(db), transaction := false, tables := {}, savepoint := None)
    case ReadTable(db, t) => if h.transaction then h.(tables := h.tables + {(db, t)}) else h
    case Savepoint => if h.transaction then h.(savepoint := Some(h.tables)) else h
    case RollbackToSavepoint => if h.savepoint.Some? then h.(tables := h.savepoint.value) else h
    case ReleaseSavepoint => h.(savepoint := None)
    case FlushTables => h.(tablesFlushed := true)
    case ReadGtids => h
    case ShowMaster => h
    case ShowSlave => h
  }

  function AfterAll(h: Held, commands: seq<Command>): Held
    decreases |commands|
  {
    if commands == [] then h else AfterAll(After(h, commands[0]), commands[1..])
  }

  /** What has to be held when a command is sent. */
  predicate Timely(o: Options, h: Held, c: Command) {
    match c
    case ReadTable(db, _) =>
      && (o.singleTransaction ==> h.transaction && !h.readLock && h.tables == {})
      && (o.lockAllTables ==> h.readLock) && (o.lockTables ==> h.lockedDb == Some(db))
      && (o.slaveData != 0 ==> !h.slaveRunning)
    case FlushLogs => !h.transaction && (o.singleTransaction || o.lockAllTables ==> h.readLock)
    case ReadLock => h.tablesFlushed && !h.transaction
    case StartTransaction => !h.transaction
    case ShowMaster => h.readLock
    case ShowSlave => !h.slaveRunning
    case ReadGtids => o.singleTransaction || o.lockAllTables ==> h.readLock
    case RollbackToSavepoint => h.savepoint.Some?
    case ReleaseSavepoint => h.savepoint.Some?
    case _ => true
  }

  predicate AllTimely(o: Options, h: Held, commands: seq<Command>)
    decreases |commands|
  {
    commands == [] || (Timely(o, h, commands[0]) && AllTimely(o, After(h, commands[0]), commands[1..]))
  }

  // ----- in parts ------------------------------------------------------------------------------------------

  lemma {:induction false} TimelyAppend(o: Options, h: Held, a: seq<Command>, b: seq<Command>)
    ensures AllTimely(o, h, a + b) <==> AllTimely(o, h, a) && AllTimely(o, AfterAll(h, a), b)
    ensures AfterAll(h, a + b) == AfterAll(AfterAll(h, a), b)
    decreases |a|
  {
    hide Timely, After;
    if a == [] {
      assert a + b == b;
    } else {
      assert (a + b)[0] == a[0] && (a + b)[1..] == a[1..] + b;
      TimelyAppend(o, After(h, a[0]), a[1..], b);
    }
  }

  function AfterWhen(h: Held, b: bool, c: Command): Held {
    if b then After(h, c) else h
  }

  lemma TimelyWhen(o: Options, h: Held, a: seq<Command>, b: bool, c: Command)
    requires AllTimely(o, h, a) && (b ==> Timely(o, AfterAll(h, a), c))
    ensures AllTimely(o, h, a + When(b, c)) && AfterAll(h, a + When(b, c)) == AfterWhen(AfterAll(h, a), b, c)
  {
    hide Timely, After;
    TimelyAppend(o, h, a, When(b, c));
    assert [c][1..] == [];
  }

  // ----- the tables of a database --------------------------------------------------------------------------------

  /** What is held while the tables are read, and between two of them. */
  predicate Dumping(o: Options, h: Held, db: Option<string>) {
    && h.transaction == o.singleTransaction && h.readLock == o.lockAllTables && h.tables == {}
    && (o.lockTables && db.Some? ==> h.lockedDb == db) && (!o.lockTables || db.None? ==> h.lockedDb == None)
    && (o.slaveData != 0 ==> !h.slaveRunning)
    && (o.singleTransaction && db.Some? ==> h.savepoint == Some({})) && (!o.singleTransaction || db.None? ==> h.savepoint == None)
  }

  lemma {:induction false} TablesTimely(o: Options, h: Held, db: string, tables: seq<string>)
    requires Dumping(o, h, Some(db)) && !(o.singleTransaction && o.lockAllTables)
    ensures AllTimely(o, h, Tables(o, db, tables)) && AfterAll(h, Tables(o, db, tables)) == h
    decreases |tables|
  {
    hide AllTimely, AfterAll;
    if tables == [] {
      NothingTimely(o, h);
    } else {
      var c, more := ReadTable(db, tables[0]), Tables(o, db, tables[1..]);
      var c1 := When(true, c);
      var c2 := c1 + When(o.singleTransaction, RollbackToSavepoint);
      NothingTimely(o, h);
      TimelyWhen(o, h, [], true, c);
      assert [] + c1 == c1;
      TimelyWhen(o, h, c1, o.singleTransaction, RollbackToSavepoint);
      assert AfterAll(h, c2) == h;
      TablesTimely(o, h, db, tables[1..]);
      TimelyAppend(o, h, c2, more);
    }
  }

  lemma NothingTimely(o: Options, h: Held)
    ensures AllTimely(o, h, []) && AfterAll(h, []) == h
  {
  }

  lemma DatabaseTimely(o: Options, gtid: bool, h: Held, d: Database)
    requires Normalise(o) == Some(o) && Dumping(o, h, None)
    ensures AllTimely(o, h, OneDatabase(o, gtid, d))
    ensures AfterAll(h, OneDatabase(o, gtid, d)) == h.(flushes := h.flushes + if o.flushLogs && !Consistent(o) then 1 else 0)
  {
    hide AllTimely, AfterAll, Tables, TakesReadLock;
    NormalisedModes(o);
    assert FlushesPerDatabase(o, gtid) <==> o.flushLogs && !Consistent(o) by { PerDatabaseIff(o, gtid); }
    var locks, f, single := o.lockTables && d.tables != [], FlushesPerDatabase(o, gtid), o.singleTransaction;
    var c1 := When(locks, LockTables(d.name));
    var c2 := c1 + When(f, FlushLogs);
    var c3 := c2 + When(single, Savepoint);
    var c4 := c3 + Tables(o, d.name, d.tables);
    var c5 := c4 + When(single, ReleaseSavepoint);
    NothingTimely(o, h);
    assert [] + c1 == c1;
    TimelyWhen(o, h, [], locks, LockTables(d.name));
    TimelyWhen(o, h, c1, f, FlushLogs);
    TimelyWhen(o, h, c2, single, Savepoint);
    if d.tables == [] {
      NoTables(o, d.name);
      assert c3 + [] == c3;
    } else {
      TablesTimely(o, AfterAll(h, c3), d.name, d.tables);
      TimelyAppend(o, h, c3, Tables(o, d.name, d.tables));
    }
    TimelyWhen(o, h, c4, single, ReleaseSavepoint);
    TimelyWhen(o, h, c5, o.lockTables, UnlockTables);
  }

  lemma NoTables(o: Options, db: string)
    ensures Tables(o, db, []) == []
  {
  }

  lemma PerDatabaseIff(o: Options, gtid: bool)
    requires Normalise(o) == Some(o)
    ensures FlushesPerDatabase(o, gtid) <==> o.flushLogs && !Consistent(o)
  {
    NormalisedModes(o);
  }

  lemma {:induction false} DatabasesTimely(o: Options, gtid: bool, h: Held, dbs: seq<Database>)
    requires Normalise(o) == Some(o) && Dumping(o, h, None)
    ensures AllTimely(o, h, Databases(o, gtid, dbs))
    ensures AfterAll(h, Databases(o, gtid, dbs)) == h.(flushes := h.flushes + if o.flushLogs && !Consistent(o) then |dbs| else 0)
    decreases |dbs|
  {
    hide AllTimely, AfterAll, OneDatabase, Normalise;
    if dbs == [] {
      NothingTimely(o, h);
    } else {
      var one, more := OneDatabase(o, gtid, dbs[0]), Databases(o, gtid, dbs[1..]);
      DatabaseTimely(o, gtid, h, dbs[0]);
      TimelyAppend(o, h, one, more);
      DatabasesTimely(o, gtid, AfterAll(h, one), dbs[1..]);
    }
  }

  // ----- before and behind them ---------------------------------------------------------------------------------

  function Nothing(slaveRunning: bool): Held {
    Held(false, None, false, slaveRunning, {}, None, false, 0)
  }

  /** In one of the consistent modes the logs are flushed once, before the transaction. */
  function FlushedBefore(o: Options): nat {
    if Consistent(o) && (o.flushLogs || o.deleteMasterLogs) then 1 else 0
  }

  lemma LockIff(o: Options, gtid: bool)
    requires Normalise(o) == Some(o)
    ensures FlushesFirst(o, gtid) <==> Consistent(o) && (o.flushLogs || o.deleteMasterLogs)
    ensures FlushesFirst(o, gtid) || o.masterData != 0 || SingleWithGtid(o, gtid) || o.lockAllTables ==> TakesReadLock(o, gtid)
    ensures TakesReadLock(o, gtid) ==> Consistent(o)
  {
    NormalisedModes(o);
  }

  lemma OpeningTimely(o: Options, gtid: bool, slaveRunning: bool)
    requires Normalise(o) == Some(o)
    ensures AllTimely(o, Nothing(slaveRunning), Opening(o, gtid))
    ensures AfterAll(Nothing(slaveRunning), Opening(o, gtid)) ==
            Held(TakesReadLock(o, gtid), None, o.singleTransaction, slaveRunning && o.slaveData == 0, {}, None,
                 TakesReadLock(o, gtid), FlushedBefore(o))
  {
    hide AllTimely, AfterAll, Normalise, TakesReadLock, FlushesFirst, SingleWithGtid;
    LockIff(o, gtid);
    var h, lock, f, slave, single := Nothing(slaveRunning), TakesReadLock(o, gtid), FlushesFirst(o, gtid), o.slaveData != 0, o.singleTransaction;
    var c1 := When(slave, StopSlave);
    var c2 := c1 + When(lock, FlushTables);
    var c3 := c2 + When(lock, ReadLock);
    var c4 := c3 + When(f, FlushLogs);
    NothingTimely(o, h);
    assert [] + c1 == c1;
    TimelyWhen(o, h, [], slave, StopSlave);
    TimelyWhen(o, h, c1, lock, FlushTables);
    TimelyWhen(o, h, c2, lock, ReadLock);
    TimelyWhen(o, h, c3, f, FlushLogs);
    TimelyWhen(o, h, c4, single, StartTransaction);
  }

  lemma CoordinatesTimely(o: Options, gtid: bool, h: Held)
    requires Normalise(o) == Some(o) && h.readLock == TakesReadLock(o, gtid) && h.lockedDb == None && (o.slaveData != 0 ==> !h.slaveRunning)
    ensures AllTimely(o, h, Coordinates(o, gtid)) && AfterAll(h, Coordinates(o, gtid)) == h.(readLock := o.lockAllTables)
  {
    hide AllTimely, AfterAll, Normalise, TakesReadLock, FlushesFirst, SingleWithGtid;
    NormalisedModes(o);
    LockIff(o, gtid);
    var g, m, v, u := SingleWithGtid(o, gtid), o.masterData != 0, o.slaveData != 0, o.singleTransaction;
    var c1 := When(g, ReadGtids);
    var c2 := c1 + When(m, ShowMaster);
    var c3 := c2 + When(v, ShowSlave);
    NothingTimely(o, h);
    assert [] + c1 == c1;
    TimelyWhen(o, h, [], g, ReadGtids);
    TimelyWhen(o, h, c1, m, ShowMaster);
    TimelyWhen(o, h, c2, v, ShowSlave);
    TimelyWhen(o, h, c3, u, UnlockTables);
  }

  lemma ClosingTimely(o: Options, gtid: bool, h: Held)
    requires Normalise(o) == Some(o) && h.readLock == o.lockAllTables
    ensures AllTimely(o, h, Closing(o, gtid)) && AfterAll(h, Closing(o, gtid)) == h.(slaveRunning := h.slaveRunning || o.slaveData != 0)
  {
    hide AllTimely, AfterAll, Normalise;
    NormalisedModes(o);
    var v, g := o.slaveData != 0, gtid && o.gtidPurged != Off && !SingleWithGtid(o, gtid);
    NothingTimely(o, h);
    assert [] + When(v, StartSlave) == When(v, StartSlave);
    TimelyWhen(o, h, [], v, StartSlave);
    TimelyWhen(o, h, When(v, StartSlave), g, ReadGtids);
  }

  /**
   For every accepted set of options: each command is sent while what it needs is held
   and nothing that is not.  In a transaction no lock is held while tables are read, and
   no table that was read stays closed to alterations.  In the end only the lock of
   --lock-all-tables is held; the logs were flushed once, or once for each database where
   nothing is consistent anyway; and replication runs if it ran or was to be stopped.
   */
  lemma ScriptTimely(raw: Options, gtid: bool, slaveRunning: bool, dbs: seq<Database>)
    requires Normalise(raw).Some?
    ensures var o := Normalise(raw).value;
            && AllTimely(o, Nothing(slaveRunning), Script(o, gtid, dbs))
            && AfterAll(Nothing(slaveRunning), Script(o, gtid, dbs)) ==
               Held(o.lockAllTables, None, o.singleTransaction, slaveRunning || o.slaveData != 0, {}, None, TakesReadLock(o, gtid),
                    if !o.flushLogs && !o.deleteMasterLogs then 0 else if Consistent(o) then 1 else |dbs|)
  {
    hide AllTimely, AfterAll, Opening, Coordinates, Databases, Closing, TakesReadLock;
    var o := Normalise(raw).value;
    assert Normalise(o) == Some(o);
    NormalisedModes(o);
    var h, a, b, c, d := Nothing(slaveRunning), Opening(o, gtid), Coordinates(o, gtid), Databases(o, gtid, dbs), Closing(o, gtid);
    OpeningTimely(o, gtid, slaveRunning);
    var h1 := AfterAll(h, a);
    CoordinatesTimely(o, gtid, h1);
    var h2 := AfterAll(h1, b);
    DatabasesTimely(o, gtid, h2, dbs);
    var h3 := AfterAll(h2, c);
    ClosingTimely(o, gtid, h3);
    TimelyAppend(o, h2, c, d);
    TimelyAppend(o, h1, b, c + d);
    TimelyAppend(o, h, a, b + (c + d));
  }

  // ----- the server keeps the same --------------------------------------------------------------------------------

  /** The server knows the same locks; a snapshot goes with the transaction. */
  predicate Agrees(s: Server, h: Held) {
    && s.readLock == h.readLock && s.lockedDb == h.lockedDb && s.slaveRunning == h.slaveRunning
    && (h.transaction ==> s.snapshot.Some?) && (s.lockedDb.Some? ==> s.snapshot.None?)
  }

  lemma StepAgrees(env: Others, s: Server, h: Held, c: Command)
    requires Agrees(s, h)
    ensures Agrees(Step(env, s, c), After(h, c))
  {
    hide Interfere;
    InterfereKeeps(s, env(s.clock));
  }

  lemma {:induction false} RunAgrees(env: Others, s: Server, h: Held, commands: seq<Command>)
    requires Agrees(s, h)
    ensures Agrees(Run(env, s, commands), AfterAll(h, commands))
    decreases |commands|
  {
    hide Step, After, Agrees;
    if commands != [] {
      StepAgrees(env, s, h, commands[0]);
      RunAgrees(env, Step(env, s, commands[0]), After(h, commands[0]), commands[1..]);
    }
  }

  /** With --dump-slave replication runs after the dump, also if it did not before. */
  lemma SlaveStarted(env: Others, log: seq<Commit>, slaveRunning: bool, raw: Options, gtid: bool, dbs: seq<Database>)
    requires Normalise(raw).Some?
    ensures var o := Normalise(raw).value;
            Dump(env, log, slaveRunning, o, gtid, dbs).slaveRunning == (slaveRunning || o.slaveData != 0)
  {
    hide AfterAll, Run, Script, AllTimely;
    ScriptTimely(raw, gtid, slaveRunning, dbs);
    RunAgrees(env, Start(log, slaveRunning), Nothing(slaveRunning), Script(Normalise(raw).value, gtid, dbs));
  }

  /** A replication that was stopped before the dump is started by it. */
  lemma StoppedSlaveStarted(env: Others, log: seq<Commit>, gtid: bool, dbs: seq<Database>)
    ensures var raw := Options(false, false, 0, 1, false, false, false, Off);
            Normalise(raw).Some? && Dump(env, log, false, Normalise(raw).value, gtid, dbs).slaveRunning
  {
    hide Dump;
    SlaveStarted(env, log, false, Options(false, false, 0, 1, false, false, false, Off), gtid, dbs);
  }
}
