/**
 `mysqlbinlog` as it is written: global flags that every event updates in place.
 Each procedure is proved to do what its function in `BinlogPrinter` says.
 */
module BinlogProgram {
  import opened Wrappers
  import opened BinlogPrinter

  class Printer {
    const o: Options

    var inTransaction: bool
    var seenGtid: bool
    var filterBasedOnGtids: bool
    var skippedEventInTransaction: bool
    var isFirstFd: bool
    var buffEv: seq<string>
    var ignoredTables: set<nat>
    var fileNames: map<nat, bool>
    var recCount: nat
    var offset: nat
    var startDatetime: nat
    var stopped: bool
    var resultFile: seq<Item>

    constructor (o: Options, offset: nat, startDatetime: nat)
      ensures this.o == o && View() == Initial(offset, startDatetime)
    {
      this.o := o;
      inTransaction, seenGtid, filterBasedOnGtids, skippedEventInTransaction := false, false, false, false;
      isFirstFd, buffEv, ignoredTables, fileNames, recCount := true, [], {}, map[], 0;
      this.offset, this.startDatetime, stopped, resultFile := offset, startDatetime, false, [];
    }

    ghost function View(): State
      reads this
    {
      State(inTransaction, seenGtid, filterBasedOnGtids, skippedEventInTransaction, isFirstFd, buffEv,
            ignoredTables, fileNames, recCount, offset, startDatetime, stopped, resultFile)
    }

    method Write(i: Item)
      modifies this`resultFile
      ensures resultFile == old(resultFile) + [i]
    {
      resultFile := resultFile + [i];
    }

    method ShallSkipGtids(k: Kind) returns (filtered: bool)
      modifies this`filterBasedOnGtids
      ensures (filtered, filterBasedOnGtids) == ShallSkip(o, old(filterBasedOnGtids), k)
    {
      filtered := false;
      match k {
        case GtidEvent(g, _) =>
          if o.included.Some? { filtered := filtered || g !in o.included.value; }
          if o.excluded.Some? { filtered := filtered || g in o.excluded.value; }
          filterBasedOnGtids := filtered;
          filtered := filtered || o.skipGtids;
        case PreviousGtids => filtered := o.skipGtids;
        case Xid =>
          filtered := filterBasedOnGtids;
          filterBasedOnGtids := false;
        case Query(_, q) =>
          filtered := filterBasedOnGtids;
          if EndsGroup(q) { filterBasedOnGtids := false; }
        case FormatDescription(_, _) =>
        case Rotate =>
        case Control =>
        case _ => filtered := filterBasedOnGtids;
      }
    }

    method EndOfBinlog()
      modifies this`resultFile, this`seenGtid, this`inTransaction
      ensures View() == EndBinlog(o, old(View()))
    {
      ghost var was := resultFile;
      if inTransaction {
        Write(AddedRollback);
      } else if seenGtid && !o.skipGtids {
        Write(AddedBegin);
        Write(AddedRollback);
      }
      if !o.skipGtids {
        Write(SetAutomatic);
      }
      assert resultFile == was + (Closing(o, old(View())) + if o.skipGtids then [] else [SetAutomatic]);
      seenGtid, inTransaction := false, false;
    }

    /** Prints, or drops, the events buffered for the statement. */
    method PopBuffered(skips: bool)
      modifies this`resultFile, this`buffEv
      ensures View() == ReleaseBuffered(old(View()), skips)
    {
      ghost var was := resultFile;
      var i := 0;
      while i < |buffEv|
        invariant 0 <= i <= |buffEv|
        invariant resultFile + (if skips then [] else AsPrinted(buffEv[i..]))
               == was + if skips then [] else AsPrinted(buffEv)
        invariant buffEv == old(buffEv)
      {
        if !skips {
          assert AsPrinted(buffEv[i..]) == [Printed(Buffered(buffEv[i]))] + AsPrinted(buffEv[i + 1..]);
          assert resultFile + AsPrinted(buffEv[i..]) == resultFile + [Printed(Buffered(buffEv[i]))] + AsPrinted(buffEv[i + 1..]);
          Write(Printed(Buffered(buffEv[i])));
        }
        i := i + 1;
      }
      assert buffEv[i..] == [] && resultFile + [] == resultFile;
      buffEv := [];
    }

    method DoQuery(k: Kind)
      requires k.Query?
      modifies this
      ensures View() == ProcessQuery(o, old(View()), k)
    {
      hide IsTransKeyword, StartsGroup, EndsGroup, OtherDatabase;
      var parentQuerySkips := !IsTransKeyword(k.query) && OtherDatabase(o, k.db);
      var ends, starts := EndsGroup(k.query), StartsGroup(k.query);
      PopBuffered(parentQuerySkips);
      if parentQuerySkips {
        if seenGtid && !inTransaction && !starts && !ends {
          Write(AddedCommit);
          skippedEventInTransaction, inTransaction, seenGtid := false, false, false;
        } else {
          skippedEventInTransaction := true;
        }
      } else {
        if ends {
          inTransaction, skippedEventInTransaction, seenGtid := false, false, false;
        } else if starts {
          inTransaction := true;
        } else if !inTransaction {
          seenGtid := false;
        }
        Write(Printed(k));
      }
    }

    method DoFormat(k: Kind)
      requires k.FormatDescription?
      modifies this
      ensures View() == ProcessFormat(o, old(View()), k)
    {
      if !k.relay {
        if k.logPos > 0 && !isFirstFd {
          EndOfBinlog();
        }
        isFirstFd := false;
      }
      Write(Printed(k));
    }

    method DoRows(k: Kind)
      requires k.Rows?
      modifies this
      ensures View() == ProcessRows(old(View()), k)
    {
      var skipEvent := k.tableId in ignoredTables;
      if k.stmtEnd {
        ignoredTables := {};
      }
      if skipEvent {
        skippedEventInTransaction := true;
      } else {
        Write(Printed(k));
      }
    }

    method DoGtid(k: Kind)
      modifies this
      ensures View() == ProcessGtid(old(View()), k)
    {
      assert resultFile + [] == resultFile;
      seenGtid := true;
      if skippedEventInTransaction {
        Write(AddedCommit);
      }
      skippedEventInTransaction := false;
      Write(Printed(k));
    }

    method PrintUnlessOther(k: Kind, db: string)
      modifies this`resultFile, this`skippedEventInTransaction
      ensures resultFile == old(resultFile) + if OtherDatabase(o, db) then [] else [Printed(k)]
      ensures skippedEventInTransaction == (old(skippedEventInTransaction) || OtherDatabase(o, db))
    {
      if OtherDatabase(o, db) {
        skippedEventInTransaction := true;
      } else {
        Write(Printed(k));
      }
    }

    method DoTableMap(k: Kind)
      requires k.TableMap?
      modifies this
      ensures View() == ProcessMap(o, old(View()), k)
    {
      hide OtherDatabase;
      PrintUnlessOther(k, k.db);
      if OtherDatabase(o, k.db) {
        ignoredTables := ignoredTables + {k.tableId};
      }
    }

    /** `grab_fname` and `grab_event`, as far as the printer sees them. */
    method Grab(id: nat, create: bool) returns (live: bool)
      modifies this`fileNames
      ensures live == Holds(old(View()), id, create)
      ensures View() == if live then Release(old(View()), id) else old(View())
    {
      live := id in fileNames && fileNames[id] == create;
      if live {
        fileNames := fileNames - {id};
      }
    }

    method DoLoadQuery(k: Kind)
      requires k.ExecuteLoadQuery?
      modifies this
      ensures View() == ProcessLoadQuery(o, old(View()), k)
    {
      var live := Grab(k.fileId, false);
      if OtherDatabase(o, k.db) {
        skippedEventInTransaction := true;
      } else if live {
        Write(Printed(k));
      }
    }

    method DoLoad(k: Kind)
      requires IsLoad(k)
      modifies this
      ensures View() == ProcessLoad(o, old(View()), k)
    {
      hide OtherDatabase, ProcessLoadQuery, Holds, Release;
      match k {
        case CreateFile(db, id) =>
          PrintUnlessOther(k, db);
          if !OtherDatabase(o, db) { fileNames := fileNames[id := true]; }
        case BeginLoad(id) =>
          Write(Printed(k));
          fileNames := fileNames[id := false];
        case ExecLoad(id) =>
          var live := Grab(id, true);
          if live { Write(Printed(k)); }
        case ExecuteLoadQuery(_, _) => DoLoadQuery(k);
      }
    }

    method DoQuiet(k: Kind)
      modifies this
      ensures View() == ProcessQuiet(o, old(View()), k)
    {
      hide ProcessMap, ProcessRows, ProcessLoad, IsLoad;
      if k.Buffered? {
        buffEv := buffEv + [k.value];
      } else if k.TableMap? {
        DoTableMap(k);
      } else if k.Rows? {
        DoRows(k);
      } else if IsLoad(k) {
        DoLoad(k);
      } else {
        Write(Printed(k));
      }
    }

    /** The switch over the event type. */
    method DoKind(k: Kind)
      modifies this
      ensures View() == ProcessKind(o, old(View()), k)
    {
      hide ProcessQuery, ProcessFormat, ProcessGtid, ProcessQuiet;
      if k.Query? {
        DoQuery(k);
      } else if k.FormatDescription? {
        DoFormat(k);
      } else if k.GtidEvent? {
        DoGtid(k);
      } else if k.Xid? {
        inTransaction, skippedEventInTransaction, seenGtid := false, false, false;
        Write(Printed(k));
      } else {
        DoQuiet(k);
      }
    }

    /** `process_event` */
    method Process(ev: Event, stopPosition: Option<nat>)
      modifies this
      ensures View() == ProcessEvent(o, old(View()), ev, stopPosition)
    {
      hide ProcessKind, ShallSkip, TooEarly, TooLate, OtherServer;
      var admitted := Admit(ev, stopPosition);
      if admitted {
        var skip := ShallSkipGtids(ev.kind);
        if !skip {
          DoKind(ev.kind);
        }
      }
    }

    /** --offset, --start-datetime, --server-id, --stop-datetime and --stop-position. */
    method Admit(ev: Event, stopPosition: Option<nat>) returns (admitted: bool)
      modifies this`recCount, this`offset, this`startDatetime, this`stopped
      ensures admitted == !(TooEarly(old(View()), ev) || OtherServer(o, ev) || TooLate(o, ev, stopPosition))
      ensures recCount == old(recCount) + 1
      ensures (offset, startDatetime) ==
              if TooEarly(old(View()), ev) || ev.kind.FormatDescription? then (old(offset), old(startDatetime)) else (0, 0)
      ensures stopped == (old(stopped) || (!admitted && !TooEarly(old(View()), ev) && !OtherServer(o, ev)))
    {
      var isFormat := ev.kind.FormatDescription?;
      var wanted := (recCount >= offset && ev.when >= startDatetime) || isFormat;
      recCount := recCount + 1;
      if !wanted {
        return false;
      }
      if !isFormat {
        startDatetime, offset := 0, 0;
        if !ev.kind.Rotate? && o.serverId != 0 && o.serverId != ev.serverId {
          return false;
        }
      }
      if ev.when >= o.stopDatetime || (stopPosition.Some? && ev.pos >= stopPosition.value) {
        stopped := true;
        return false;
      }
      return true;
    }

    method DumpLog(log: seq<Event>, stopPosition: Option<nat>)
      modifies this
      ensures View() == ProcessLog(o, old(View()), log, stopPosition)
    {
      var i := 0;
      while i < |log| && !stopped
        invariant 0 <= i <= |log|
        invariant ProcessLog(o, View(), log[i..], stopPosition) == ProcessLog(o, old(View()), log, stopPosition)
      {
        assert log[i..][1..] == log[i + 1..];
        Process(log[i], stopPosition);
        i := i + 1;
      }
    }

    /** `dump_multiple_logs` */
    method DumpMultipleLogs(logs: seq<seq<Event>>, stopPosition: Option<nat>)
      modifies this
      ensures View() == Finish(o, ProcessLogs(o, old(View()), logs, stopPosition))
    {
      var i := 0;
      while i < |logs| && !stopped
        invariant 0 <= i <= |logs|
        invariant ProcessLogs(o, View(), logs[i..], stopPosition) == ProcessLogs(o, old(View()), logs, stopPosition)
      {
        assert logs[i..][1..] == logs[i + 1..];
        DumpLog(logs[i], if i == |logs| - 1 then stopPosition else None);
        i := i + 1;
      }
      if skippedEventInTransaction {
        Write(AddedCommit);
      }
      EndOfBinlog();
    }
  }
}
