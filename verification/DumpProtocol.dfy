/**
 The locking protocol of `mysqldump`: the commands it sends, in order, for a set
 of options, run against a server on which other sessions commit at any moment
 the locks allow.
 */
module DumpProtocol {
  import opened Wrappers

  // ----- options ---------------------------------------------------------------------------------

  datatype GtidPurged = Off | Auto | On

  datatype Options = Options(
    singleTransaction: bool,
    lockAllTables: bool,
    masterData: nat,
    slaveData: nat,
    deleteMasterLogs: bool,
    flushLogs: bool,
    lockTables: bool,
    gtidPurged: GtidPurged)

  const COMMENTED_SQL := 2

  /** The option handling of `get_options`; None is its usage error. */
  function Normalise(o: Options): Option<Options> {
    var a := if o.slaveData == 0 then o
             else o.(lockAllTables := !o.singleTransaction, masterData := 0, deleteMasterLogs := false);
    var b := if a.deleteMasterLogs && a.masterData == 0 then a.(masterData := COMMENTED_SQL) else a;
    if b.singleTransaction && b.lockAllTables then None
    else
      var c := if b.masterData == 0 then b else b.(lockAllTables := !b.singleTransaction, slaveData := 0);
      Some(if c.singleTransaction || c.lockAllTables then c.(lockTables := false) else c)
  }

  /** Which options are refused, and what becomes of the others. */
  lemma NormalisedValues(o: Options)
    ensures Normalise(o).None? <==> o.singleTransaction && o.lockAllTables && o.slaveData == 0
    ensures Normalise(o).Some? ==>
              var n := Normalise(o).value;
              && n.masterData == (if o.slaveData != 0 then 0 else if o.deleteMasterLogs && o.masterData == 0 then 2 else o.masterData)
              && n.slaveData == o.slaveData && n.deleteMasterLogs == (o.deleteMasterLogs && o.slaveData == 0)
              && n.lockAllTables == (if n.masterData != 0 || o.slaveData != 0 then !o.singleTransaction else o.lockAllTables)
              && n.lockTables == (o.lockTables && !n.singleTransaction && !n.lockAllTables)
  {
  }

  /** The options are one snapshot, one lock, or neither; replication data implies one of the first two. */
  lemma NormalisedModes(o: Options)
    requires Normalise(o).Some?
    ensures var n := Normalise(o).value;
            && !(n.singleTransaction && n.lockAllTables)
            && (n.masterData != 0 || n.slaveData != 0 || n.deleteMasterLogs ==> n.singleTransaction || n.lockAllTables)
            && (n.deleteMasterLogs ==> n.masterData != 0)
            && !(n.masterData != 0 && n.slaveData != 0)
            && (n.lockTables ==> !n.singleTransaction && !n.lockAllTables)
            && n.singleTransaction == o.singleTransaction && n.flushLogs == o.flushLogs && n.gtidPurged == o.gtidPurged
            && (o.lockAllTables && o.slaveData == 0 ==> n.lockAllTables)
  {
  }

  // ----- what mysqldump sends -------------------------------------------------------------------------

  datatype Command =
    | StopSlave | StartSlave
    | FlushTables | ReadLock | UnlockTables
    | FlushLogs
    | StartTransaction
    | Savepoint | RollbackToSavepoint | ReleaseSavepoint
    | LockTables(db: string)
    | ReadTable(db: string, table: string)
    | ReadGtids | ShowMaster | ShowSlave

  datatype Database = Database(name: string, tables: seq<string>)

  function When(b: bool, command: Command): seq<Command> {
    if b then [command] else []
  }

  predicate SingleWithGtid(o: Options, gtid: bool) {
    gtid && o.singleTransaction && o.gtidPurged != Off
  }

  predicate TakesReadLock(o: Options, gtid: bool) {
    o.lockAllTables || o.masterData != 0 || (o.singleTransaction && (o.flushLogs || SingleWithGtid(o, gtid)))
  }

  predicate FlushesFirst(o: Options, gtid: bool) {
    (TakesReadLock(o, gtid) || o.deleteMasterLogs) && (o.flushLogs || o.deleteMasterLogs)
  }

  /** `flush_logs` as it stands when the databases are dumped. */
  predicate FlushesPerDatabase(o: Options, gtid: bool) {
    o.flushLogs && !TakesReadLock(o, gtid) && !o.deleteMasterLogs
  }

  /** Up to and including the start of the transaction. */
  function Opening(o: Options, gtid: bool): seq<Command> {
    When(o.slaveData != 0, StopSlave)
    + When(TakesReadLock(o, gtid), FlushTables) + When(TakesReadLock(o, gtid), ReadLock)
    + When(FlushesFirst(o, gtid), FlushLogs)
    + When(o.singleTransaction, StartTransaction)
  }

  /** The coordinates are read before the lock is given up. */
  function Coordinates(o: Options, gtid: bool): seq<Command> {
    When(SingleWithGtid(o, gtid), ReadGtids)
    + When(o.masterData != 0, ShowMaster)
    + When(o.slaveData != 0, ShowSlave)
    + When(o.singleTransaction, UnlockTables)
  }

  function Tables(o: Options, db: string, tables: seq<string>): seq<Command> {
    if tables == [] then []
    else [ReadTable(db, tables[0])] + When(o.singleTransaction, RollbackToSavepoint) + Tables(o, db, tables[1..])
  }

  /** `dump_all_tables_in_db` */
  function OneDatabase(o: Options, gtid: bool, d: Database): seq<Command> {
    When(o.lockTables && d.tables != [], LockTables(d.name))
    + When(FlushesPerDatabase(o, gtid), FlushLogs)
    + When(o.singleTransaction, Savepoint)
    + Tables(o, d.name, d.tables)
    + When(o.singleTransaction, ReleaseSavepoint)
    + When(o.lockTables, UnlockTables)
  }

  function Databases(o: Options, gtid: bool, dbs: seq<Database>): seq<Command> {
    if dbs == [] then [] else OneDatabase(o, gtid, dbs[0]) + Databases(o, gtid, dbs[1..])
  }

  function Closing(o: Options, gtid: bool): seq<Command> {
    When(o.slaveData != 0, StartSlave)
    + When(gtid && o.gtidPurged != Off && !SingleWithGtid(o, gtid), ReadGtids)
  }

  /** Everything `main` sends for the given (normalised) options. */
  function Script(o: Options, gtid: bool, dbs: seq<Database>): seq<Command> {
    Opening(o, gtid) + (Coordinates(o, gtid) + (Databases(o, gtid, dbs) + Closing(o, gtid)))
  }

  // ----- the server ---------------------------------------------------------------------------------------

  /** A commit of another session, or of the replication thread. */
  datatype Commit = Commit(db: string, bySlave: bool)

  datatype Read = Read(db: string, table: string, point: nat)

  /** A point is a length of the commit log: what was committed when something was looked at. */
  datatype Server = Server(
    log: seq<Commit>,
    readLock: bool,
    lockedDb: Option<string>,
    snapshot: Option<nat>,
    slaveRunning: bool,
    clock: nat,
    seen: seq<Read>,
    gtids: Option<nat>,
    master: Option<nat>,
    slave: Option<nat>)

  predicate Allowed(s: Server, c: Commit) {
    !s.readLock && s.lockedDb != Some(c.db) && (c.bySlave ==> s.slaveRunning)
  }

  /** The commits that get through before the next command. */
  function Interfere(s: Server, commits: seq<Commit>): Server
    decreases |commits|
  {
    if commits == [] then s
    else Interfere(if Allowed(s, commits[0]) then s.(log := s.log + [commits[0]]) else s, commits[1..])
  }

  function SlaveCommits(log: seq<Commit>): (n: nat)
    ensures n <= |log|
  {
    if log == [] then 0
    else SlaveCommits(log[..|log| - 1]) + if log[|log| - 1].bySlave then 1 else 0
  }

  function Execute(s: Server, command: Command): Server {
    match command
    case StopSlave => s.(slaveRunning := false)
    case StartSlave => s.(slaveRunning := true)
    case ReadLock => s.(readLock := true)
    case UnlockTables => s.(readLock := false, lockedDb := None, snapshot := if s.lockedDb.Some? then None else s.snapshot)
    case FlushLogs => s.(snapshot := None)
    case StartTransaction => s.(snapshot := Some(|s.log|), lockedDb := None)
    case LockTables(db) => s.(snapshot := None, lockedDb := Some(db))
    case ReadTable(db, t) => s.(seen := s.seen + [Read(db, t, if s.snapshot.Some? then s.snapshot.value else |s.log|)])
    case ReadGtids => s.(gtids := Some(|s.log|))
    case ShowMaster => s.(master := Some(|s.log|))
    case ShowSlave => s.(slave := Some(SlaveCommits(s.log)))
    case FlushTables => s
    case Savepoint => s
    case RollbackToSavepoint => s
    case ReleaseSavepoint => s
  }

  /** What other sessions try to commit, command by command. */
  type Others = nat -> seq<Commit>

  function Step(env: Others, s: Server, command: Command): Server {
    Execute(Interfere(s, env(s.clock)).(clock := s.clock + 1), command)
  }

  function Run(env: Others, s: Server, commands: seq<Command>): Server
    decreases |commands|
  {
    if commands == [] then s else Run(env, Step(env, s, commands[0]), commands[1..])
  }

  function Start(log: seq<Commit>, slaveRunning: bool): Server {
    Server(log, false, None, None, slaveRunning, 0, [], None, None, None)
  }

  /** A whole dump. */
  function Dump(env: Others, log: seq<Commit>, slaveRunning: bool, o: Options, gtid: bool, dbs: seq<Database>): Server {
    Run(env, Start(log, slaveRunning), Script(o, gtid, dbs))
  }
}
