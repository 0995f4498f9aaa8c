/**
 `mysqldump` as it is written: option globals that are rewritten on the way, and
 commands sent in the order of `main`.
 */
module DumpProgram {
  import opened Sequences
  import opened DumpProtocol

  class Dumper {
    var singleTransaction: bool
    var lockAllTables: bool
    var masterData: nat
    var slaveData: nat
    var deleteMasterLogs: bool
    var flushLogs: bool
    var lockTables: bool
    var gtidPurged: GtidPurged

    var sent: seq<Command>

    constructor (o: Options)
      ensures Current() == o && sent == []
    {
      singleTransaction, lockAllTables, masterData, slaveData := o.singleTransaction, o.lockAllTables, o.masterData, o.slaveData;
      deleteMasterLogs, flushLogs, lockTables, gtidPurged := o.deleteMasterLogs, o.flushLogs, o.lockTables, o.gtidPurged;
      sent := [];
    }

    function Current(): Options
      reads this
    {
      Options(singleTransaction, lockAllTables, masterData, slaveData, deleteMasterLogs, flushLogs, lockTables, gtidPurged)
    }

    /** The locking part of `get_options`; false is its usage error. */
    method GetOptions() returns (ok: bool)
      modifies this
      ensures sent == old(sent) && (ok <==> Normalise(old(Current())).Some?)
      ensures ok ==> Current() == Normalise(old(Current())).value
    {
      if slaveData != 0 {
        lockAllTables := !singleTransaction;
        masterData := 0;
        deleteMasterLogs := false;
      }
      if deleteMasterLogs && masterData == 0 {
        masterData := COMMENTED_SQL;
      }
      if singleTransaction && lockAllTables {
        return false;
      }
      if masterData != 0 {
        lockAllTables := !singleTransaction;
        slaveData := 0;
      }
      if singleTransaction || lockAllTables {
        lockTables := false;
      }
      return true;
    }

    method Send(c: Command)
      modifies this`sent
      ensures sent == old(sent) + [c]
    {
      sent := sent + [c];
    }

    method SendIf(b: bool, c: Command)
      modifies this`sent
      ensures sent == old(sent) + When(b, c)
    {
      if b {
        Send(c);
      }
    }

    method DumpTables(db: string, tables: seq<string>)
      modifies this`sent
      ensures sent == old(sent) + Tables(Current(), db, tables)
    {
      ghost var before := sent;
      assert before == before + [] && tables[..0] == [];
      for i := 0 to |tables|
        invariant before + Tables(Current(), db, tables) == sent + Tables(Current(), db, tables[i..])
      {
        ghost var rest := Tables(Current(), db, tables[i + 1..]);
        assert tables[i..][1..] == tables[i + 1..];
        AppendTwice(sent, [ReadTable(db, tables[i])], When(singleTransaction, RollbackToSavepoint), rest);
        Send(ReadTable(db, tables[i]));
        SendIf(singleTransaction, RollbackToSavepoint);
      }
      assert tables[|tables|..] == [];
    }

    /** `dump_all_tables_in_db`; here `flushLogs` is the value that `main` has left. */
    method DumpAllTablesInDb(d: Database)
      modifies this`sent
      ensures sent == old(sent) + DatabaseCommands(Current(), d)
    {
      SendIf(lockTables && d.tables != [], LockTables(d.name));
      SendIf(flushLogs, FlushLogs);
      SendIf(singleTransaction, Savepoint);
      DumpTables(d.name, d.tables);
      SendIf(singleTransaction, ReleaseSavepoint);
      SendIf(lockTables, UnlockTables);
      ghost var o := Current();
      Regroup6(old(sent), When(lockTables && d.tables != [], LockTables(d.name)), When(flushLogs, FlushLogs), When(singleTransaction, Savepoint),
          Tables(o, d.name, d.tables), When(singleTransaction, ReleaseSavepoint), When(lockTables, UnlockTables));
    }

    method DumpDatabases(dbs: seq<Database>)
      modifies this`sent
      ensures sent == old(sent) + AllCommands(Current(), dbs)
    {
      ghost var before := sent;
      for i := 0 to |dbs|
        invariant before + AllCommands(Current(), dbs) == sent + AllCommands(Current(), dbs[i..])
      {
        assert dbs[i..][1..] == dbs[i + 1..];
        Assoc(sent, DatabaseCommands(Current(), dbs[i]), AllCommands(Current(), dbs[i + 1..]));
        DumpAllTablesInDb(dbs[i]);
      }
      assert dbs[|dbs|..] == [];
    }

    /** Up to the start of the transaction; the logs are flushed here once, and then no more. */
    method Open(gtid: bool)
      modifies this
      ensures sent == old(sent) + Opening(old(Current()), gtid)
      ensures Current() == old(Current()).(flushLogs := FlushesPerDatabase(old(Current()), gtid))
    {
      hide When;
      ghost var o := Current();
      SendIf(slaveData != 0, StopSlave);
      var singleTransWithGtid := gtid && singleTransaction && gtidPurged != Off;
      var readLock := lockAllTables || masterData != 0 || (singleTransaction && (flushLogs || singleTransWithGtid));
      SendIf(readLock, FlushTables);
      SendIf(readLock, ReadLock);
      var flushes := (readLock || deleteMasterLogs) && (flushLogs || deleteMasterLogs);
      SendIf(flushes, FlushLogs);
      if readLock || deleteMasterLogs {
        flushLogs := false;
      }
      SendIf(singleTransaction, StartTransaction);
      Regroup5(old(sent), When(slaveData != 0, StopSlave), When(readLock, FlushTables), When(readLock, ReadLock), When(flushes, FlushLogs), When(singleTransaction, StartTransaction));
    }

    /** The coordinates, before the lock is given up. */
    method AskForCoordinates(gtid: bool)
      modifies this`sent
      ensures sent == old(sent) + Coordinates(Current(), gtid)
    {
      hide When;
      var singleTransWithGtid := gtid && singleTransaction && gtidPurged != Off;
      SendIf(singleTransWithGtid, ReadGtids);
      SendIf(masterData != 0, ShowMaster);
      SendIf(slaveData != 0, ShowSlave);
      SendIf(singleTransaction, UnlockTables);
      Regroup4(old(sent), When(singleTransWithGtid, ReadGtids), When(masterData != 0, ShowMaster), When(slaveData != 0, ShowSlave), When(singleTransaction, UnlockTables));
    }

    method Close(gtid: bool)
      modifies this`sent
      ensures sent == old(sent) + Closing(Current(), gtid)
    {
      hide When;
      var late := gtid && gtidPurged != Off && !(gtid && singleTransaction && gtidPurged != Off);
      SendIf(slaveData != 0, StartSlave);
      SendIf(late, ReadGtids);
      Assoc(old(sent), When(slaveData != 0, StartSlave), When(late, ReadGtids));
    }

    /** `main` from the first command on. */
    method SendAll(gtid: bool, dbs: seq<Database>)
      modifies this
      ensures sent == old(sent) + Script(old(Current()), gtid, dbs)
    {
      ghost var o := Current();
      ghost var later := o.(flushLogs := FlushesPerDatabase(o, gtid));
      assert Coordinates(later, gtid) == Coordinates(o, gtid) && Closing(later, gtid) == Closing(o, gtid);
      hide Opening, Coordinates, Closing, AllCommands, Databases, FlushesPerDatabase;
      Open(gtid);
      AskForCoordinates(gtid);
      DumpDatabases(dbs);
      SameCommands(o, gtid, dbs);
      Close(gtid);
      RegroupRight(old(sent), Opening(o, gtid), Coordinates(o, gtid), Databases(o, gtid, dbs), Closing(o, gtid));
    }
  }

  /** What is sent for a database with the options as they stand then. */
  function DatabaseCommands(o: Options, d: Database): seq<Command> {
    When(o.lockTables && d.tables != [], LockTables(d.name))
    + When(o.flushLogs, FlushLogs)
    + When(o.singleTransaction, Savepoint)
    + Tables(o, d.name, d.tables)
    + When(o.singleTransaction, ReleaseSavepoint)
    + When(o.lockTables, UnlockTables)
  }

  function AllCommands(o: Options, dbs: seq<Database>): seq<Command> {
    if dbs == [] then [] else DatabaseCommands(o, dbs[0]) + AllCommands(o, dbs[1..])
  }

  lemma {:induction false} SameTables(o: Options, b: bool, db: string, tables: seq<string>)
    ensures Tables(o.(flushLogs := b), db, tables) == Tables(o, db, tables)
  {
    if tables != [] { SameTables(o, b, db, tables[1..]); }
  }

  /** The rewritten flag is what decides about the flush of each database. */
  lemma {:induction false} SameCommands(o: Options, gtid: bool, dbs: seq<Database>)
    ensures AllCommands(o.(flushLogs := FlushesPerDatabase(o, gtid)), dbs) == Databases(o, gtid, dbs)
  {
    if dbs != [] {
      SameTables(o, FlushesPerDatabase(o, gtid), dbs[0].name, dbs[0].tables);
      SameCommands(o, gtid, dbs[1..]);
    }
  }

  lemma AppendTwice(s: seq<Command>, a: seq<Command>, b: seq<Command>, c: seq<Command>)
    ensures s + (a + b + c) == s + a + b + c
  {
  }

  lemma RegroupRight(s: seq<Command>, a: seq<Command>, b: seq<Command>, c: seq<Command>, d: seq<Command>)
    ensures s + (a + (b + (c + d))) == s + a + b + c + d
  {
  }

  lemma Regroup4(s: seq<Command>, a: seq<Command>, b: seq<Command>, c: seq<Command>, d: seq<Command>)
    ensures s + (a + b + c + d) == s + a + b + c + d
  {
  }

  lemma Regroup5(s: seq<Command>, a: seq<Command>, b: seq<Command>, c: seq<Command>, d: seq<Command>, e: seq<Command>)
    ensures s + (a + b + c + d + e) == s + a + b + c + d + e
  {
    Regroup4(s, a, b, c, d);
    Assoc(s, a + b + c + d, e);
  }

  lemma Regroup6(s: seq<Command>, a: seq<Command>, b: seq<Command>, c: seq<Command>, d: seq<Command>, e: seq<Command>, f: seq<Command>)
    ensures s + (a + b + c + d + e + f) == s + a + b + c + d + e + f
  {
    Regroup5(s, a, b, c, d, e);
    Assoc(s, a + b + c + d + e, f);
  }
}
