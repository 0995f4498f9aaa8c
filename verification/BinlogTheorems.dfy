/**
 What is promised about the printed file when a server executes it: exactly which
 runs leave a transaction open or a GTID without a statement.
 */
module BinlogTheorems {
  import opened Wrappers
  import opened BinlogPrinter
  import opened BinlogServer

  // ----- what the printed statements look like ------------------------------------------------------

  predicate LooksStart(i: Item) {
    i.AddedBegin? || (i.Printed? && i.kind.Query? && StartsGroup(i.kind.query) && !EndsGroup(i.kind.query))
  }

  predicate LooksEnd(i: Item) {
    i.AddedRollback? || (i.Printed? && (i.kind.Xid? || (i.kind.Query? && EndsGroup(i.kind.query))))
  }

  /** Whether the statements look as if a transaction were open, by the words of the log alone. */
  predicate LooksOpen(items: seq<Item>) {
    items != [] &&
    var last := items[|items| - 1];
    LooksStart(last) || (!LooksEnd(last) && LooksOpen(items[..|items| - 1]))
  }

  lemma LooksOne(items: seq<Item>, i: Item)
    ensures LooksOpen(items + [i]) <==> LooksStart(i) || (!LooksEnd(i) && LooksOpen(items))
  {
    assert (items + [i])[..|items|] == items;
  }

  lemma {:induction false} LooksMore(items: seq<Item>, more: seq<Item>)
    requires forall i | i in more :: !LooksStart(i) && !LooksEnd(i)
    ensures LooksOpen(items + more) <==> LooksOpen(items)
    decreases |more|
  {
    if more == [] {
      assert items + more == items;
    } else {
      var n := |more| - 1;
      assert items + more == (items + more[..n]) + [more[n]] && more[n] in more;
      LooksOne(items + more[..n], more[n]);
      LooksMore(items, more[..n]);
    }
  }

  /** The server has a plain transaction open that does not show. */
  predicate Hidden(v: Parser, items: seq<Item>) {
    Reading(v, items).open.Plain? && !LooksOpen(items)
  }

  // ----- the invariant -------------------------------------------------------------------

  /** The flag of the transaction says how it looks, and the flag of the GTID never claims too little. */
  ghost predicate Kept(o: Options, v: Parser, s: State) {
    && s.inTransaction == LooksOpen(s.output)
    && (After(v, s).open.Nothing? && !After(v, s).gtid.NoGtid? ==> s.seenGtid)
    && (!GtidsPass(o) ==> !s.seenGtid)
  }

  lemma SkippedNeverPass(o: Options)
    requires o.skipGtids
    ensures !GtidsPass(o)
  {
  }

  lemma EndBinlogLooks(o: Options, s: State)
    requires s.inTransaction == LooksOpen(s.output)
    ensures !LooksOpen(EndBinlog(o, s).output)
  {
    var tail := if o.skipGtids then [] else [SetAutomatic];
    var first := Closing(o, s);
    assert EndBinlog(o, s).output == (s.output + first) + tail by { assert s.output + (first + tail) == (s.output + first) + tail; }
    LooksMore(s.output + first, tail);
    if s.inTransaction {
      LooksOne(s.output, AddedRollback);
    } else if s.seenGtid && !o.skipGtids {
      assert s.output + [AddedBegin, AddedRollback] == (s.output + [AddedBegin]) + [AddedRollback];
      LooksOne(s.output + [AddedBegin], AddedRollback);
    } else {
      assert s.output + [] == s.output;
    }
  }

  /** The end of a binlog closes everything, unless it falls inside an XA transaction, or a hidden one and no GTID is waiting. */
  lemma EndBinlogCloses(o: Options, v: Parser, s: State)
    requires Kept(o, v, s)
    ensures After(v, EndBinlog(o, s)) == CLOSED <==> !InXa(After(v, s)) && (Hidden(v, s.output) ==> s.seenGtid)
    ensures InXa(After(v, s)) ==> After(v, EndBinlog(o, s)) == After(v, s)
    ensures Kept(o, v, EndBinlog(o, s))
  {
    hide Reading, GtidsPass, LooksOpen;
    EndBinlogAfter(v, o, s);
    EndBinlogLooks(o, s);
    if o.skipGtids { SkippedNeverPass(o); }
  }

  /** What a query event does to the session. */
  lemma QueryAfter(v: Parser, s: State, k: Kind, skips: bool, starts: bool, ends: bool)
    requires k.Query?
    ensures After(v, QueryStep(s, k, skips, starts, ends)) ==
            if !skips then BinlogServer.Run(After(v, s), v(k.query))
            else if CommitsSkipped(s, starts, ends) then EndPlain(After(v, s))
            else After(v, s)
  {
    hide ExecuteAll, BinlogServer.Run;
    var t := ReleaseBuffered(s, skips);
    Appended(v, s, if skips then [] else AsPrinted(s.buffered));
    BufferedNeutral(v, After(v, s), s.buffered);
    assert ExecuteAll(v, After(v, s), []) == After(v, s) by { BufferedNeutral(v, After(v, s), []); }
    assert After(v, t) == After(v, s);
    CommitAdded(v, t);
    Prints(v, QueryFlags(t, starts, ends), k);
  }

  lemma {:induction false} BufferedLooks(items: seq<Item>, values: seq<string>)
    ensures LooksOpen(items + AsPrinted(values)) <==> LooksOpen(items)
  {
    PrintedNeutral(values);
    LooksMore(items, AsPrinted(values));
  }

  lemma {:induction false} PrintedNeutral(values: seq<string>)
    ensures forall i | i in AsPrinted(values) :: !LooksStart(i) && !LooksEnd(i)
  {
    if values != [] { PrintedNeutral(values[1..]); }
  }

  lemma StepOutput(s: State, k: Kind, skips: bool, starts: bool, ends: bool)
    ensures QueryStep(s, k, skips, starts, ends).output ==
            if !skips then s.output + AsPrinted(s.buffered) + [Printed(k)]
            else if CommitsSkipped(s, starts, ends) then s.output + [AddedCommit]
            else s.output
  {
    assert s.output + [] == s.output;
  }

  lemma QueryLooks(s: State, k: Kind, skips: bool)
    requires k.Query?
    ensures var starts, ends := StartsGroup(k.query), EndsGroup(k.query);
            LooksOpen(QueryStep(s, k, skips, starts, ends).output) <==>
            if skips then LooksOpen(s.output) else !ends && (starts || LooksOpen(s.output))
  {
    hide LooksOpen, StartsGroup, EndsGroup, QueryStep;
    var out := if skips then s.output else s.output + AsPrinted(s.buffered);
    BufferedLooks(s.output, s.buffered);
    StepOutput(s, k, skips, StartsGroup(k.query), EndsGroup(k.query));
    LooksOne(out, Printed(k));
    LooksOne(out, AddedCommit);
  }

  lemma QueryFlagsAre(s: State, k: Kind, skips: bool, starts: bool, ends: bool)
    ensures var r := QueryStep(s, k, skips, starts, ends);
            && r.inTransaction == (if skips then s.inTransaction else !ends && (starts || s.inTransaction))
            && r.seenGtid == (if skips then s.seenGtid && !CommitsSkipped(s, starts, ends)
                              else !ends && s.seenGtid && (starts || s.inTransaction))
  {
  }

  /** Outside transactions a query that the printer takes for the last of its GTID is that for the server. */
  lemma QueryKeeps(o: Options, v: Parser, s: State, k: Kind)
    requires k.Query? && Kept(o, v, s)
    ensures Kept(o, v, ProcessQuery(o, s, k))
  {
    hide Reading, GtidsPass, StartsGroup, EndsGroup, IsTransKeyword, OtherDatabase, QueryStep, LooksOpen;
    var skips, starts, ends := !IsTransKeyword(k.query) && OtherDatabase(o, k.db), StartsGroup(k.query), EndsGroup(k.query);
    QueryAfter(v, s, k, skips, starts, ends);
    QueryFlagsAre(s, k, skips, starts, ends);
    QueryLooks(s, k, skips);
  }

  /** A format event that begins a further log. */
  predicate EndsLog(s: State, k: Kind)
    requires k.FormatDescription?
  {
    !k.relay && k.logPos > 0 && !s.isFirstFd
  }

  lemma FormatIs(o: Options, v: Parser, s: State, k: Kind)
    requires k.FormatDescription?
    ensures var t, r := if EndsLog(s, k) then EndBinlog(o, s) else s, ProcessFormat(o, s, k);
            && r.output == t.output + [Printed(k)] && After(v, r) == After(v, t)
            && r.inTransaction == t.inTransaction && r.seenGtid == t.seenGtid && r.skipped == t.skipped && r.ignored == t.ignored
  {
    hide Reading, EndBinlog;
    var t := if EndsLog(s, k) then EndBinlog(o, s) else s;
    Prints(v, t, k);
    SameOutput(v, BinlogPrinter.Print(t, k), ProcessFormat(o, s, k));
  }

  lemma FormatKeeps(o: Options, v: Parser, s: State, k: Kind)
    requires k.FormatDescription? && Kept(o, v, s)
    ensures Kept(o, v, ProcessFormat(o, s, k))
  {
    hide Reading, EndBinlog, GtidsPass, LooksOpen, ProcessFormat;
    EndBinlogCloses(o, v, s);
    FormatIs(o, v, s, k);
    var t := if EndsLog(s, k) then EndBinlog(o, s) else s;
    LooksOne(t.output, Printed(k));
  }

  function PendingOf(k: Kind): Pending
    requires k.GtidEvent?
  {
    if k.anonymous then Anonymous else Numbered
  }

  lemma GtidAfter(v: Parser, s: State, k: Kind)
    requires k.GtidEvent?
    ensures After(v, ProcessGtid(s, k)) == (if s.skipped then EndPlain(After(v, s)) else After(v, s)).(gtid := PendingOf(k))
    ensures LooksOpen(ProcessGtid(s, k).output) <==> LooksOpen(s.output)
  {
    hide ExecuteAll, LooksOpen;
    var t := s.(seenGtid := true, skipped := false, output := s.output + if s.skipped then [AddedCommit] else []);
    CommitAdded(v, s);
    assert s.output + [] == s.output;
    Prints(v, t, k);
    LooksOne(s.output, AddedCommit);
    LooksOne(t.output, Printed(k));
  }

  lemma GtidKeeps(o: Options, v: Parser, s: State, k: Kind)
    requires k.GtidEvent? && GtidsPass(o) && Kept(o, v, s)
    ensures Kept(o, v, ProcessGtid(s, k))
  {
    hide Reading, GtidsPass, LooksOpen;
    GtidAfter(v, s, k);
  }

  /** Events that are printed, or dropped, and leave the two flags alone. */
  predicate Quiet(k: Kind) {
    !k.Query? && !k.FormatDescription? && !k.GtidEvent? && !k.Xid?
  }

  /** The event was printed, or nothing was. */
  ghost predicate PrintedOrNot(v: Parser, s: State, k: Kind, r: State) {
    && ((After(v, r) == After(v, s) && r.output == s.output) || (After(v, r) == Execute(v, After(v, s), Printed(k)) && r.output == s.output + [Printed(k)]))
    && r.inTransaction == s.inTransaction && r.seenGtid == s.seenGtid
  }

  lemma QuietAfter(o: Options, v: Parser, s: State, k: Kind)
    requires Quiet(k)
    ensures PrintedOrNot(v, s, k, ProcessQuiet(o, s, k))
    ensures var r := ProcessQuiet(o, s, k);
            o.database.None? && !s.skipped && s.ignored == {} ==> !r.skipped && r.ignored == {}
  {
    hide Reading, Execute, ProcessLoad, Quiet;
    Prints(v, s, k);
    if k.Rows? { Prints(v, s.(ignored := {}), k); }
    if IsLoad(k) { LoadAfter(o, v, s, k); }
  }

  lemma LoadAfter(o: Options, v: Parser, s: State, k: Kind)
    requires IsLoad(k)
    ensures PrintedOrNot(v, s, k, ProcessLoad(o, s, k))
    ensures var r := ProcessLoad(o, s, k); r.ignored == s.ignored && (o.database.None? ==> r.skipped == s.skipped)
  {
    hide Reading, Execute, Holds;
    Prints(v, s, k);
    Prints(v, s.(loads := s.loads[k.fileId := true]), k);
    Prints(v, s.(loads := s.loads[k.fileId := false]), k);
    Prints(v, Release(s, k.fileId), k);
  }

  lemma QuietKeeps(o: Options, v: Parser, s: State, k: Kind)
    requires Quiet(k) && Kept(o, v, s)
    ensures Kept(o, v, ProcessQuiet(o, s, k))
  {
    hide Reading, GtidsPass, LooksOpen, ProcessQuiet;
    QuietAfter(o, v, s, k);
    LooksOne(s.output, Printed(k));
  }

  lemma XidKeeps(o: Options, v: Parser, s: State)
    requires Kept(o, v, s)
    ensures Kept(o, v, ProcessKind(o, s, Xid))
  {
    hide Reading, GtidsPass, LooksOpen;
    var t := s.(inTransaction := false, skipped := false, seenGtid := false);
    Prints(v, t, Xid);
    SameOutput(v, s, t);
    LooksOne(t.output, Printed(Xid));
  }

  lemma KindKeeps(o: Options, v: Parser, s: State, k: Kind)
    requires (k.GtidEvent? ==> GtidsPass(o)) && Kept(o, v, s)
    ensures Kept(o, v, ProcessKind(o, s, k))
  {
    hide Kept, GtidsPass, ProcessQuery, ProcessFormat, ProcessGtid, ProcessQuiet;
    if k.Query? {
      QueryKeeps(o, v, s, k);
    } else if k.FormatDescription? {
      FormatKeeps(o, v, s, k);
    } else if k.GtidEvent? {
      GtidKeeps(o, v, s, k);
    } else if k.Xid? {
      XidKeeps(o, v, s);
    } else {
      QuietKeeps(o, v, s, k);
    }
  }

  lemma FilterKeeps(o: Options, v: Parser, s: State, k: Kind)
    requires Kept(o, v, s)
    ensures Kept(o, v, FilterAndProcess(o, s, k))
  {
    hide ExecuteAll, ProcessKind, LooksOpen;
    var u := s.(filtering := ShallSkip(o, s.filtering, k).1);
    SameOutput(v, s, u);
    if !ShallSkip(o, s.filtering, k).0 { KindKeeps(o, v, u, k); }
  }

  lemma CountedSame(s: State, ev: Event)
    ensures var c := Counted(s, ev); c.output == s.output && c.inTransaction == s.inTransaction && c.seenGtid == s.seenGtid
    ensures var c := Counted(s, ev); c.skipped == s.skipped && c.ignored == s.ignored
  {
    hide Counted;
  }

  lemma EventKeeps(o: Options, v: Parser, s: State, ev: Event, stopPosition: Option<nat>)
    requires Kept(o, v, s)
    ensures Kept(o, v, ProcessEvent(o, s, ev, stopPosition))
  {
    hide ExecuteAll, FilterAndProcess, LooksOpen, GtidsPass, TooEarly, TooLate, OtherServer, Counted;
    var c := Counted(s, ev);
    CountedSame(s, ev);
    SameOutput(v, s, c);
    SameOutput(v, s, c.(stopped := true));
    FilterKeeps(o, v, c, ev.kind);
  }

  lemma {:induction false} LogKeeps(o: Options, v: Parser, s: State, log: seq<Event>, stopPosition: Option<nat>)
    requires Kept(o, v, s)
    ensures Kept(o, v, ProcessLog(o, s, log, stopPosition))
    decreases |log|
  {
    hide Kept, ProcessEvent;
    if log != [] && !s.stopped {
      EventKeeps(o, v, s, log[0], stopPosition);
      LogKeeps(o, v, ProcessEvent(o, s, log[0], stopPosition), log[1..], stopPosition);
    }
  }

  lemma {:induction false} LogsKeep(o: Options, v: Parser, s: State, logs: seq<seq<Event>>, stopPosition: Option<nat>)
    requires Kept(o, v, s)
    ensures Kept(o, v, ProcessLogs(o, s, logs, stopPosition))
    decreases |logs|
  {
    hide Kept, ProcessLog;
    if logs != [] && !s.stopped {
      var stop := if |logs| == 1 then stopPosition else None;
      LogKeeps(o, v, s, logs[0], stop);
      LogsKeep(o, v, ProcessLog(o, s, logs[0], stop), logs[1..], stopPosition);
    }
  }

  lemma Starts(o: Options, v: Parser, offset: nat, startDatetime: nat)
    ensures Kept(o, v, Initial(offset, startDatetime)) && After(v, Initial(offset, startDatetime)) == CLOSED
  {
    hide GtidsPass;
  }

  lemma FinishCloses(o: Options, v: Parser, s: State)
    requires Kept(o, v, s)
    ensures After(v, Finish(o, s)) == CLOSED <==> !InXa(After(v, s)) && (Hidden(v, s.output) ==> s.skipped || s.seenGtid)
  {
    hide ExecuteAll, EndBinlog, GtidsPass, LooksOpen;
    if s.skipped {
      var t := s.(output := s.output + [AddedCommit]);
      CommitAdded(v, s);
      LooksOne(s.output, AddedCommit);
      EndBinlogCloses(o, v, t);
    } else {
      EndBinlogCloses(o, v, s);
    }
  }

  /**
   Whatever the options filter and wherever the input is cut off, the printed file
   leaves no transaction open and no GTID without a statement, if and only if where
   the input ends the server is neither inside an XA transaction nor inside a plain
   one that does not show and for which no skipped event or GTID adds an end.
   */
  lemma DumpClosesIff(o: Options, v: Parser, offset: nat, startDatetime: nat, logs: seq<seq<Event>>, stopPosition: Option<nat>)
    ensures var s := ProcessLogs(o, Initial(offset, startDatetime), logs, stopPosition);
            After(v, Dump(o, offset, startDatetime, logs, stopPosition)) == CLOSED <==>
            !InXa(After(v, s)) && (Hidden(v, s.output) ==> s.skipped || s.seenGtid)
  {
    hide ProcessLogs, Kept, Initial, Finish, After, Hidden;
    Starts(o, v, offset, startDatetime);
    LogsKeep(o, v, Initial(offset, startDatetime), logs, stopPosition);
    FinishCloses(o, v, ProcessLogs(o, Initial(offset, startDatetime), logs, stopPosition));
  }

  /** Also every single binlog inside the run is closed before the next one starts, on the same condition. */
  lemma EachBinlogCloses(o: Options, v: Parser, offset: nat, startDatetime: nat, logs: seq<seq<Event>>, k: Kind)
    requires k.FormatDescription? && !k.relay && k.logPos > 0
    ensures var s := ProcessLogs(o, Initial(offset, startDatetime), logs, None);
            !s.isFirstFd ==>
              (After(v, ProcessFormat(o, s, k)) == CLOSED <==> !InXa(After(v, s)) && (Hidden(v, s.output) ==> s.seenGtid))
  {
    hide ProcessLogs, Kept, Initial, ExecuteAll, EndBinlog, Hidden;
    Starts(o, v, offset, startDatetime);
    LogsKeep(o, v, Initial(offset, startDatetime), logs, None);
    var s := ProcessLogs(o, Initial(offset, startDatetime), logs, None);
    if !s.isFirstFd {
      EndBinlogCloses(o, v, s);
      Prints(v, EndBinlog(o, s).(isFirstFd := false), k);
      SameOutput(v, EndBinlog(o, s), EndBinlog(o, s).(isFirstFd := false));
    }
  }

  // ----- how a transaction comes to be hidden ----------------------------------------------------------

  /** An end of a group, by its words, at which the server keeps its plain transaction. */
  predicate Refuses(v: Parser, items: seq<Item>, j: nat) {
    j < |items| && LooksEnd(items[j]) && Reading(v, items[..j]).open.Plain? && Reading(v, items[..j + 1]).open.Plain?
  }

  /** A statement that begins a transaction although nothing in its words, or before, says so. */
  predicate BeginsUnseen(v: Parser, items: seq<Item>, j: nat) {
    && j < |items| && !LooksOpen(items[..j + 1])
    && !Reading(v, items[..j]).open.Plain? && Reading(v, items[..j + 1]).open.Plain?
  }

  /** From there on nothing looks like a start, and the server stays in the transaction. */
  predicate StaysHidden(v: Parser, items: seq<Item>, j: nat) {
    forall k | j < k < |items| :: !LooksStart(items[k]) && Reading(v, items[..k + 1]).open.Plain?
  }

  predicate HidesAt(v: Parser, items: seq<Item>, j: nat) {
    (Refuses(v, items, j) || BeginsUnseen(v, items, j)) && StaysHidden(v, items, j)
  }

  lemma Prefixes(v: Parser, items: seq<Item>, i: Item, j: nat)
    requires j < |items|
    ensures HidesAt(v, items + [i], j) <==> HidesAt(v, items, j) && !LooksStart(i) && Reading(v, items + [i]).open.Plain?
  {
    hide Reading, LooksOpen, LooksStart, LooksEnd;
    var all := items + [i];
    assert all[..j] == items[..j] && all[..j + 1] == items[..j + 1] && all[j] == items[j];
    assert forall k | j < k < |items| :: all[..k + 1] == items[..k + 1] && all[k] == items[k];
    assert all[..|items| + 1] == all && all[|items|] == i;
    if HidesAt(v, items, j) && !LooksStart(i) && Reading(v, all).open.Plain? {
      forall k | j < k < |all| ensures !LooksStart(all[k]) && Reading(v, all[..k + 1]).open.Plain? {
        assert k < |items| ==> all[..k + 1] == items[..k + 1] && all[k] == items[k];
      }
    }
    if HidesAt(v, all, j) {
      forall k | j < k < |items| ensures !LooksStart(items[k]) && Reading(v, items[..k + 1]).open.Plain? {
        assert !LooksStart(all[k]) && Reading(v, all[..k + 1]).open.Plain?;
      }
      assert j < |items| < |all|;
    }
  }

  lemma LastHides(v: Parser, items: seq<Item>, i: Item)
    ensures HidesAt(v, items + [i], |items|) <==>
            && Reading(v, items + [i]).open.Plain?
            && if Reading(v, items).open.Plain? then LooksEnd(i) else !LooksOpen(items + [i])
  {
    hide Reading, LooksOpen, LooksStart, LooksEnd;
    var all := items + [i];
    assert all[..|items|] == items && all[..|items| + 1] == all && all[|items|] == i;
  }

  /**
   A plain transaction is hidden if and only if, since a statement that looked like
   its end and was refused, or that began it without looking so, nothing has looked
   like a start and the server has stayed in it.
   */
  lemma {:induction false} HiddenIff(v: Parser, items: seq<Item>)
    ensures Hidden(v, items) <==> exists j: nat :: HidesAt(v, items, j)
    decreases |items|
  {
    hide HidesAt, Reading, LooksOpen;
    if items == [] {
      NothingHidden(v);
    } else {
      var n := |items| - 1;
      var before, i := items[..n], items[n];
      assert items == before + [i];
      HiddenIff(v, before);
      LooksOne(before, i);
      LastHides(v, before, i);
      LooksApart(i);
      PlainFrom(v, before, i);
      if Hidden(v, items) {
        if Reading(v, before).open.Plain? && !LooksEnd(i) {
          var j: nat :| HidesAt(v, before, j);
          HidesInside(v, before, j);
          Prefixes(v, before, i, j);
          assert HidesAt(v, items, j);
        } else {
          assert HidesAt(v, items, n);
        }
      } else {
        forall j: nat ensures !HidesAt(v, items, j) {
          HidesInside(v, items, j);
          if j < n { Prefixes(v, before, i, j); }
        }
      }
    }
  }

  lemma HidesInside(v: Parser, items: seq<Item>, j: nat)
    ensures HidesAt(v, items, j) ==> j < |items|
  {
  }

  lemma NothingHidden(v: Parser)
    ensures !Hidden(v, []) && forall j: nat :: !HidesAt(v, [], j)
  {
  }

  lemma LooksApart(i: Item)
    ensures !(LooksStart(i) && LooksEnd(i))
  {
  }

  lemma PlainFrom(v: Parser, before: seq<Item>, i: Item)
    ensures Reading(v, before + [i]) == Execute(v, Reading(v, before), i)
  {
    assert (before + [i])[..|before|] == before;
  }
}
