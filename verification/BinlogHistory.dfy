/**
 What `mysqlbinlog` prints, told from the events alone: which events are wanted, which
 of them are left out, and what is added, each by what has come before it and without
 any state of the program.
 */
module BinlogHistory {
  import opened Wrappers
  import opened BinlogPrinter

  // ----- looking back ---------------------------------------------------------------------------------

  /** A condition on an event and those before it. */
  type Mark = (seq<Kind>, Kind) -> bool

  /** The event was so marked, and none behind it undid that. */
  ghost predicate StandsAt(past: seq<Kind>, on: Mark, off: Mark, i: nat) {
    i < |past| && on(past[..i], past[i]) && forall j | i < j < |past| :: !off(past[..j], past[j])
  }

  ghost predicate Since(past: seq<Kind>, on: Mark, off: Mark) {
    exists i: nat :: StandsAt(past, on, off, i)
  }

  lemma StandsNext(past: seq<Kind>, k: Kind, on: Mark, off: Mark, i: nat)
    requires i < |past|
    ensures StandsAt(past + [k], on, off, i) <==> StandsAt(past, on, off, i) && !off(past, k)
  {
    var all, n := past + [k], |past|;
    assert all[..n] == past && all[n] == k;
    assert all[..i] == past[..i] && all[i] == past[i];
    forall j | i < j < n ensures off(all[..j], all[j]) <==> off(past[..j], past[j]) {
      assert all[..j] == past[..j];
    }
    if StandsAt(past, on, off, i) && !off(past, k) {
      forall j | i < j < |all| ensures !off(all[..j], all[j]) {}
    }
    if StandsAt(all, on, off, i) {
      assert !off(all[..n], all[n]);
      forall j | i < j < n ensures !off(past[..j], past[j]) {
        assert !off(all[..j], all[j]);
      }
    }
  }

  lemma StandsLast(past: seq<Kind>, k: Kind, on: Mark, off: Mark)
    ensures StandsAt(past + [k], on, off, |past|) <==> on(past, k)
  {
    assert (past + [k])[..|past|] == past;
  }

  lemma SinceNext(past: seq<Kind>, k: Kind, on: Mark, off: Mark)
    ensures Since(past + [k], on, off) <==> on(past, k) || (Since(past, on, off) && !off(past, k))
  {
    hide StandsAt;
    StandsLast(past, k, on, off);
    forall i: nat ensures i < |past| ==> (StandsAt(past + [k], on, off, i) <==> StandsAt(past, on, off, i) && !off(past, k))
                  ensures StandsAt(past + [k], on, off, i) ==> i <= |past|
                  ensures StandsAt(past, on, off, i) ==> i < |past|
    {
      StandsInside(past + [k], on, off, i);
      StandsInside(past, on, off, i);
      if i < |past| { StandsNext(past, k, on, off, i); }
    }
  }

  lemma StandsInside(past: seq<Kind>, on: Mark, off: Mark, i: nat)
    ensures StandsAt(past, on, off, i) ==> i < |past|
  {
  }

  lemma SinceNever(on: Mark, off: Mark)
    ensures !Since([], on, off)
  {
  }

  // ----- the GTIDs ---------------------------------------------------------------------------------------

  /** In the set of --include-gtids, if there is one, and not in that of --exclude-gtids. */
  predicate Chosen(o: Options, g: Gtid) {
    (o.included.Some? ==> g in o.included.value) && (o.excluded.Some? ==> g !in o.excluded.value)
  }

  function NotChosen(o: Options): Mark {
    (past: seq<Kind>, k: Kind) => k.GtidEvent? && !Chosen(o, k.gtid)
  }

  function Settles(): Mark {
    (past: seq<Kind>, k: Kind) => k.GtidEvent? || k.Xid? || (k.Query? && EndsGroup(k.query))
  }

  /** The latest GTID was not chosen, and its group has not ended. */
  ghost predicate Rejected(o: Options, past: seq<Kind>) {
    Since(past, NotChosen(o), Settles())
  }

  /** The event gets through the filter by GTIDs. */
  ghost predicate Passes(o: Options, past: seq<Kind>, k: Kind) {
    match k
    case GtidEvent(g, _) => Chosen(o, g) && !o.skipGtids
    case PreviousGtids => !o.skipGtids
    case FormatDescription(_, _) => true
    case Rotate => true
    case Control => true
    case _ => !Rejected(o, past)
  }

  /** The events that get through. */
  ghost function Passed(o: Options, reached: seq<Kind>): seq<Kind> {
    if reached == [] then []
    else
      var past, k := reached[..|reached| - 1], reached[|reached| - 1];
      Passed(o, past) + if Passes(o, past, k) then [k] else []
  }

  // ----- transactions ------------------------------------------------------------------------------------

  /** A further log begins, so that the one before it has ended. */
  predicate NewLog(past: seq<Kind>, k: Kind) {
    k.FormatDescription? && !k.relay && k.logPos > 0 && exists i | i in past :: i.FormatDescription? && !i.relay
  }

  function Starts(): Mark {
    (past: seq<Kind>, k: Kind) => k.Query? && StartsGroup(k.query) && !EndsGroup(k.query)
  }

  function Ends(): Mark {
    (past: seq<Kind>, k: Kind) => k.Xid? || (k.Query? && EndsGroup(k.query)) || NewLog(past, k)
  }

  /** By its words a group has been started and not ended. */
  ghost predicate Open(past: seq<Kind>) {
    Since(past, Starts(), Ends())
  }

  /** A statement that belongs to no group. */
  ghost predicate Alone(past: seq<Kind>, k: Kind) {
    k.Query? && !StartsGroup(k.query) && !EndsGroup(k.query) && !Open(past)
  }

  function IsGtid(): Mark {
    (past: seq<Kind>, k: Kind) => k.GtidEvent?
  }

  ghost function Uses(): Mark {
    (past: seq<Kind>, k: Kind) => Ends()(past, k) || Alone(past, k)
  }

  /** A GTID has come and nothing that uses it up. */
  ghost predicate Awaiting(past: seq<Kind>) {
    Since(past, IsGtid(), Uses())
  }

  // ----- --database ----------------------------------------------------------------------------------------

  predicate Foreign(o: Options, db: string) {
    o.database.Some? && o.database != Some(db)
  }

  function MapsForeign(o: Options, id: nat): Mark {
    (past: seq<Kind>, k: Kind) => k.TableMap? && k.tableId == id && Foreign(o, k.db)
  }

  function EndsStatement(): Mark {
    (past: seq<Kind>, k: Kind) => k.Rows? && k.stmtEnd
  }

  /** In this statement the table was said to be of another database. */
  ghost predicate Ignored(o: Options, past: seq<Kind>, id: nat) {
    Since(past, MapsForeign(o, id), EndsStatement())
  }

  /** The event belongs to another database. */
  ghost predicate LeftOut(o: Options, past: seq<Kind>, k: Kind) {
    match k
    case Query(db, q) => Foreign(o, db) && !IsTransKeyword(q)
    case CreateFile(db, _) => Foreign(o, db)
    case ExecuteLoadQuery(db, _) => Foreign(o, db)
    case TableMap(db, _) => Foreign(o, db)
    case Rows(id, _) => Ignored(o, past, id)
    case _ => false
  }

  // ----- LOAD DATA -------------------------------------------------------------------------------------------

  predicate Creates(o: Options, k: Kind, id: nat) {
    k.CreateFile? && k.fileId == id && !Foreign(o, k.db)
  }

  predicate BeginsLoad(k: Kind, id: nat) {
    k.BeginLoad? && k.fileId == id
  }

  function CreatesFile(o: Options, id: nat): Mark {
    (past: seq<Kind>, k: Kind) => Creates(o, k, id)
  }

  function TakesCreated(id: nat): Mark {
    (past: seq<Kind>, k: Kind) => BeginsLoad(k, id) || (k.ExecLoad? && k.fileId == id)
  }

  /** A Create_file event has begun a file for the id, which nothing has taken or replaced. */
  ghost predicate Created(o: Options, past: seq<Kind>, id: nat) {
    Since(past, CreatesFile(o, id), TakesCreated(id))
  }

  function BeginsFile(id: nat): Mark {
    (past: seq<Kind>, k: Kind) => BeginsLoad(k, id)
  }

  function TakesBegun(o: Options, id: nat): Mark {
    (past: seq<Kind>, k: Kind) => Creates(o, k, id) || (k.ExecuteLoadQuery? && k.fileId == id)
  }

  /** A Begin_load_query event has. */
  ghost predicate Begun(o: Options, past: seq<Kind>, id: nat) {
    Since(past, BeginsFile(id), TakesBegun(o, id))
  }

  // ----- what is printed ----------------------------------------------------------------------------------------

  /** Everything that passed is printed, but what belongs to another database, and loads without a file. */
  ghost predicate IsPrinted(o: Options, past: seq<Kind>, k: Kind) {
    && !k.Buffered? && !LeftOut(o, past, k)
    && (k.ExecLoad? ==> Created(o, past, k.fileId)) && (k.ExecuteLoadQuery? ==> Begun(o, past, k.fileId))
  }

  /** The events that wait for the query they belong to. */
  function Waiting(past: seq<Kind>): seq<Item> {
    if past == [] || past[|past| - 1].Query? then []
    else Waiting(past[..|past| - 1]) + if past[|past| - 1].Buffered? then [Printed(past[|past| - 1])] else []
  }

  /** A statement with a GTID of its own that is left out; a COMMIT is printed in its place. */
  ghost predicate Replaced(o: Options, past: seq<Kind>, k: Kind) {
    LeftOut(o, past, k) && Alone(past, k) && Awaiting(past)
  }

  ghost function Drops(o: Options): Mark {
    (past: seq<Kind>, k: Kind) => LeftOut(o, past, k) && !Replaced(o, past, k)
  }

  ghost function MakesGood(o: Options): Mark {
    (past: seq<Kind>, k: Kind) => k.GtidEvent? || k.Xid? || (k.Query? && EndsGroup(k.query)) || Replaced(o, past, k)
  }

  /** Something was left out since the last transaction ended. */
  ghost predicate Incomplete(o: Options, past: seq<Kind>) {
    Since(past, Drops(o), MakesGood(o))
  }

  /** What ends a log: the open transaction is rolled back, and a GTID that waits gets an empty one. */
  ghost function LogEnd(o: Options, past: seq<Kind>): seq<Item> {
    (if Open(past) then [AddedRollback] else if Awaiting(past) && !o.skipGtids then [AddedBegin, AddedRollback] else [])
    + if o.skipGtids then [] else [SetAutomatic]
  }

  /** What is added in front of an event. */
  ghost function Added(o: Options, past: seq<Kind>, k: Kind): seq<Item> {
    if NewLog(past, k) then LogEnd(o, past)
    else if (k.GtidEvent? && Incomplete(o, past)) || Replaced(o, past, k) then [AddedCommit]
    else []
  }

  /** What an event makes the program print. */
  ghost function Writes(o: Options, past: seq<Kind>, k: Kind): seq<Item> {
    Added(o, past, k) + (if IsPrinted(o, past, k) then (if k.Query? then Waiting(past) else []) + [Printed(k)] else [])
  }

  /** The output for events that have passed. */
  ghost function Output(o: Options, passed: seq<Kind>): seq<Item> {
    if passed == [] then []
    else Output(o, passed[..|passed| - 1]) + Writes(o, passed[..|passed| - 1], passed[|passed| - 1])
  }

  /** What is added at the end of the run. */
  ghost function Tail(o: Options, passed: seq<Kind>): seq<Item> {
    (if Incomplete(o, passed) then [AddedCommit] else []) + LogEnd(o, passed)
  }
}
