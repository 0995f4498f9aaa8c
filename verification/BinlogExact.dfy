/**
 For which logs and options the promises of `mysqlbinlog` hold in every run, exactly.
 A log is described by the texts of its query events; all other events may stand
 in it in any number and order, and it may be cut off anywhere.  How the server
 reads the texts is a parameter.
 */
module BinlogExact {
  import opened Wrappers
  import opened BinlogPrinter
  import opened BinlogServer
  import opened BinlogTheorems

  // ----- the statements of a log ---------------------------------------------------------------------

  /** Events other than queries that end a GTID when they stand outside a transaction. */
  predicate Standalone(k: Kind) {
    IsStatement(k) || k.XaPrepare?
  }

  /** Its queries have these texts, and without `bare` it holds no such event. */
  predicate KindWithin(texts: set<string>, bare: bool, k: Kind) {
    (k.Query? ==> k.query in texts) && (bare || !Standalone(k))
  }

  predicate LogWithin(texts: set<string>, bare: bool, log: seq<Event>) {
    forall ev | ev in log :: KindWithin(texts, bare, ev.kind)
  }

  predicate Within(texts: set<string>, bare: bool, logs: seq<seq<Event>>) {
    forall log | log in logs :: LogWithin(texts, bare, log)
  }

  predicate NoBegin(v: Parser, texts: set<string>) {
    forall q | q in texts :: !v(q).Begin?
  }

  /** By its words it starts a group and does not end one. */
  predicate ReadsStart(q: string) {
    StartsGroup(q) && !EndsGroup(q)
  }

  /** A plain transaction is not begun unseen, and no XA transaction is begun. */
  predicate Seen(v: Parser, q: string) {
    !v(q).XaStart? && (v(q).Begin? ==> ReadsStart(q))
  }

  /** What reads like an end is one, inside a plain transaction. */
  ghost predicate EndIsEnd(o: Options, v: Parser, q: string) {
    EndsGroup(q) ==> v(q).End? || (v(q).Commits? && !GtidsPass(o))
  }

  ghost predicate ClosingWords(o: Options, v: Parser, texts: set<string>) {
    (forall q | q in texts :: Seen(v, q)) && (NoBegin(v, texts) || forall q | q in texts :: EndIsEnd(o, v, q))
  }

  predicate Started(v: Parser, q: string) {
    !v(q).XaStart? && (v(q).Begin? <==> ReadsStart(q))
  }

  /** What reads like an end is one and the other way round; an implicit commit is not seen. */
  ghost predicate Ended(o: Options, v: Parser, q: string) {
    if v(q).Commits? then EndsGroup(q) && !GtidsPass(o) else EndsGroup(q) <==> v(q).End?
  }

  ghost predicate ExactWords(o: Options, v: Parser, texts: set<string>) {
    && (forall q | q in texts :: Started(v, q))
    && (NoBegin(v, texts) || ((o.database.Some? ==> !GtidsPass(o)) && forall q | q in texts :: Ended(o, v, q)))
  }

  // ----- what holds throughout a run -------------------------------------------------------------------

  /** Nothing is left open unseen; or the flag of the transaction is exact; or both flags are. */
  datatype Claim = Seeing | Exact | BothExact

  ghost predicate Words(claim: Claim, o: Options, v: Parser, texts: set<string>) {
    if claim.Seeing? then ClosingWords(o, v, texts) else ExactWords(o, v, texts)
  }

  ghost predicate HoldsOf(claim: Claim, o: Options, v: Parser, texts: set<string>, r: Session, inTransaction: bool, seenGtid: bool) {
    && !InXa(r) && (r.open.Plain? ==> inTransaction && !NoBegin(v, texts)) && (!GtidsPass(o) ==> r.gtid.NoGtid?)
    && (!claim.Seeing? ==> (r.open.Plain? <==> inTransaction))
    && (claim.BothExact? ==> (r.gtid.NoGtid? <==> !seenGtid))
  }

  ghost predicate Holding(claim: Claim, o: Options, v: Parser, texts: set<string>, s: State) {
    && HoldsOf(claim, o, v, texts, After(v, s), s.inTransaction, s.seenGtid)
    && (o.database.None? ==> !s.skipped && s.ignored == {})
  }

  /** A query moves the session and the flags alike. */
  lemma RunHolds(claim: Claim, o: Options, v: Parser, texts: set<string>, r: Session, inTransaction: bool, seenGtid: bool, q: string)
    requires q in texts && Words(claim, o, v, texts) && HoldsOf(claim, o, v, texts, r, inTransaction, seenGtid)
    ensures var starts, ends := StartsGroup(q), EndsGroup(q);
            HoldsOf(claim, o, v, texts, BinlogServer.Run(r, v(q)), !ends && (starts || inTransaction),
                    !ends && seenGtid && (starts || inTransaction))
  {
    hide GtidsPass, StartsGroup, EndsGroup;
    assert if claim.Seeing? then Seen(v, q) else Started(v, q);
    if !NoBegin(v, texts) { assert if claim.Seeing? then EndIsEnd(o, v, q) else Ended(o, v, q); }
  }

  lemma QuerySkips(o: Options, s: State, k: Kind)
    requires k.Query? && o.database.None?
    ensures var r := ProcessQuery(o, s, k); (r.skipped ==> s.skipped) && r.ignored == s.ignored
  {
    hide IsTransKeyword, StartsGroup, EndsGroup;
  }

  lemma QueryHolds(claim: Claim, o: Options, v: Parser, texts: set<string>, s: State, k: Kind)
    requires k.Query? && k.query in texts && Words(claim, o, v, texts) && Holding(claim, o, v, texts, s)
    ensures Holding(claim, o, v, texts, ProcessQuery(o, s, k))
  {
    hide Reading, GtidsPass, StartsGroup, EndsGroup, IsTransKeyword, OtherDatabase, NoBegin, BinlogServer.Run, QueryStep, Words;
    var skips, starts, ends := !IsTransKeyword(k.query) && OtherDatabase(o, k.db), StartsGroup(k.query), EndsGroup(k.query);
    QueryAfter(v, s, k, skips, starts, ends);
    QueryFlagsAre(s, k, skips, starts, ends);
    if o.database.None? { QuerySkips(o, s, k); }
    if !skips { RunHolds(claim, o, v, texts, After(v, s), s.inTransaction, s.seenGtid, k.query); }
  }

  lemma EndHolds(claim: Claim, o: Options, v: Parser, texts: set<string>, s: State)
    requires Kept(o, v, s) && Holding(claim, o, v, texts, s)
    ensures After(v, EndBinlog(o, s)) == CLOSED && Holding(claim, o, v, texts, EndBinlog(o, s))
  {
    hide Reading, GtidsPass, NoBegin, LooksOpen;
    EndBinlogCloses(o, v, s);
  }

  lemma FormatHolds(claim: Claim, o: Options, v: Parser, texts: set<string>, s: State, k: Kind)
    requires k.FormatDescription? && Kept(o, v, s) && Holding(claim, o, v, texts, s)
    ensures Holding(claim, o, v, texts, ProcessFormat(o, s, k))
  {
    hide Reading, GtidsPass, NoBegin, LooksOpen, EndBinlog, Kept, ProcessFormat;
    EndHolds(claim, o, v, texts, s);
    FormatIs(o, v, s, k);
  }

  lemma GtidHolds(claim: Claim, o: Options, v: Parser, texts: set<string>, s: State, k: Kind)
    requires k.GtidEvent? && GtidsPass(o) && Words(claim, o, v, texts) && Holding(claim, o, v, texts, s)
    ensures Holding(claim, o, v, texts, ProcessGtid(s, k))
  {
    hide Reading, GtidsPass, NoBegin;
    GtidAfter(v, s, k);
  }

  lemma QuietHolds(claim: Claim, o: Options, v: Parser, texts: set<string>, bare: bool, s: State, k: Kind)
    requires Quiet(k) && KindWithin(texts, bare, k) && (claim.BothExact? && GtidsPass(o) ==> !bare)
    requires Holding(claim, o, v, texts, s)
    ensures Holding(claim, o, v, texts, ProcessQuiet(o, s, k))
  {
    hide Reading, GtidsPass, NoBegin, ProcessQuiet;
    QuietAfter(o, v, s, k);
  }

  lemma XidHolds(claim: Claim, o: Options, v: Parser, texts: set<string>, s: State)
    requires Holding(claim, o, v, texts, s)
    ensures Holding(claim, o, v, texts, ProcessKind(o, s, Xid))
  {
    hide Reading, GtidsPass, NoBegin;
    var t := s.(inTransaction := false, skipped := false, seenGtid := false);
    Prints(v, t, Xid);
    SameOutput(v, s, t);
  }

  lemma KindHolds(claim: Claim, o: Options, v: Parser, texts: set<string>, bare: bool, s: State, k: Kind)
    requires KindWithin(texts, bare, k) && (claim.BothExact? && GtidsPass(o) ==> !bare) && (k.GtidEvent? ==> GtidsPass(o))
    requires Words(claim, o, v, texts) && Kept(o, v, s) && Holding(claim, o, v, texts, s)
    ensures Holding(claim, o, v, texts, ProcessKind(o, s, k))
  {
    hide Holding, Words, Kept, GtidsPass, Standalone, ProcessQuery, ProcessFormat, ProcessGtid, ProcessQuiet;
    if k.Query? {
      QueryHolds(claim, o, v, texts, s, k);
    } else if k.FormatDescription? {
      FormatHolds(claim, o, v, texts, s, k);
    } else if k.GtidEvent? {
      GtidHolds(claim, o, v, texts, s, k);
    } else if k.Xid? {
      XidHolds(claim, o, v, texts, s);
    } else {
      QuietHolds(claim, o, v, texts, bare, s, k);
    }
  }

  lemma FilterHolds(claim: Claim, o: Options, v: Parser, texts: set<string>, bare: bool, s: State, k: Kind)
    requires KindWithin(texts, bare, k) && (claim.BothExact? && GtidsPass(o) ==> !bare)
    requires Words(claim, o, v, texts) && Kept(o, v, s) && Holding(claim, o, v, texts, s)
    ensures Holding(claim, o, v, texts, FilterAndProcess(o, s, k))
  {
    hide ExecuteAll, ProcessKind, HoldsOf, Words, KindWithin, LooksOpen;
    var u := s.(filtering := ShallSkip(o, s.filtering, k).1);
    SameOutput(v, s, u);
    if !ShallSkip(o, s.filtering, k).0 { KindHolds(claim, o, v, texts, bare, u, k); }
  }

  lemma EventHolds(claim: Claim, o: Options, v: Parser, texts: set<string>, bare: bool, s: State, ev: Event, stop: Option<nat>)
    requires KindWithin(texts, bare, ev.kind) && (claim.BothExact? && GtidsPass(o) ==> !bare)
    requires Words(claim, o, v, texts) && Kept(o, v, s) && Holding(claim, o, v, texts, s)
    ensures Holding(claim, o, v, texts, ProcessEvent(o, s, ev, stop))
  {
    hide ExecuteAll, FilterAndProcess, HoldsOf, Words, KindWithin, TooEarly, TooLate, OtherServer, Counted, LooksOpen, GtidsPass;
    var c := Counted(s, ev);
    CountedSame(s, ev);
    SameOutput(v, s, c);
    SameOutput(v, s, c.(stopped := true));
    FilterHolds(claim, o, v, texts, bare, c, ev.kind);
  }

  lemma {:induction false} LogHolds(claim: Claim, o: Options, v: Parser, texts: set<string>, bare: bool, s: State, log: seq<Event>, stop: Option<nat>)
    requires LogWithin(texts, bare, log) && (claim.BothExact? && GtidsPass(o) ==> !bare)
    requires Words(claim, o, v, texts) && Kept(o, v, s) && Holding(claim, o, v, texts, s)
    ensures Holding(claim, o, v, texts, ProcessLog(o, s, log, stop))
    decreases |log|
  {
    hide Holding, Kept, ProcessEvent, Words, KindWithin, GtidsPass;
    if log != [] && !s.stopped {
      EventHolds(claim, o, v, texts, bare, s, log[0], stop);
      EventKeeps(o, v, s, log[0], stop);
      LogHolds(claim, o, v, texts, bare, ProcessEvent(o, s, log[0], stop), log[1..], stop);
    }
  }

  lemma {:induction false} LogsHold(claim: Claim, o: Options, v: Parser, texts: set<string>, bare: bool, s: State, logs: seq<seq<Event>>, stop: Option<nat>)
    requires Within(texts, bare, logs) && (claim.BothExact? && GtidsPass(o) ==> !bare)
    requires Words(claim, o, v, texts) && Kept(o, v, s) && Holding(claim, o, v, texts, s)
    ensures Holding(claim, o, v, texts, ProcessLogs(o, s, logs, stop))
    decreases |logs|
  {
    hide Holding, Kept, ProcessLog, Words, LogWithin, GtidsPass;
    if logs != [] && !s.stopped {
      var at := if |logs| == 1 then stop else None;
      LogHolds(claim, o, v, texts, bare, s, logs[0], at);
      LogKeeps(o, v, s, logs[0], at);
      LogsHold(claim, o, v, texts, bare, ProcessLog(o, s, logs[0], at), logs[1..], stop);
    }
  }

  lemma RunIsHolding(claim: Claim, o: Options, v: Parser, texts: set<string>, bare: bool, offset: nat, start: nat, logs: seq<seq<Event>>, stop: Option<nat>)
    requires Within(texts, bare, logs) && (claim.BothExact? && GtidsPass(o) ==> !bare) && Words(claim, o, v, texts)
    ensures Holding(claim, o, v, texts, ProcessLogs(o, Initial(offset, start), logs, stop))
    ensures Kept(o, v, ProcessLogs(o, Initial(offset, start), logs, stop))
  {
    hide Reading, GtidsPass, NoBegin, Words, Within, Kept, ProcessLogs;
    Starts(o, v, offset, start);
    LogsHold(claim, o, v, texts, bare, Initial(offset, start), logs, stop);
    LogsKeep(o, v, Initial(offset, start), logs, stop);
  }

  // ----- single runs ---------------------------------------------------------------------------

  /** An event that --server-id and --stop-datetime let through. */
  function At(o: Options, k: Kind): Event {
    Event(k, 0, o.serverId, 0)
  }

  /** A query that --database lets through. */
  function Asked(o: Options, q: string): Kind {
    Query(if o.database.Some? then o.database.value else "", q)
  }

  predicate Running(s: State) {
    !s.stopped && !s.filtering && s.offset == 0 && s.startDatetime == 0
  }

  /** An event that reaches the switch. */
  lemma Reaching(o: Options, s: State, k: Kind)
    requires Running(s) && o.stopDatetime > 0 && (k.GtidEvent? ==> !Unwanted(o, k.gtid) && !o.skipGtids)
    requires !k.PreviousGtids? && !k.FormatDescription?
    ensures var c := s.(recCount := s.recCount + 1);
            ProcessEvent(o, s, At(o, k), None) == ProcessKind(o, c, k)
  {
    hide ProcessKind, Unwanted;
    assert Counted(s, At(o, k)) == s.(recCount := s.recCount + 1);
    assert ShallSkip(o, false, k) == (false, false);
  }

  function StepOf(o: Options, s: State, k: Kind): State {
    ProcessEvent(o, s, At(o, k), None)
  }

  lemma RunOne(o: Options, a: Kind)
    ensures ProcessLogs(o, Initial(0, 0), [[At(o, a)]], None) == StepOf(o, Initial(0, 0), a)
  {
    hide ProcessEvent;
    var x := At(o, a);
    assert [[x]][1..] == [] && [x][1..] == [];
    var s := StepOf(o, Initial(0, 0), a);
    assert ProcessLog(o, s, [], None) == s;
  }

  lemma RunTwo(o: Options, a: Kind, b: Kind)
    ensures var s := StepOf(o, Initial(0, 0), a);
            !s.stopped ==> ProcessLogs(o, Initial(0, 0), [[At(o, a), At(o, b)]], None) == StepOf(o, s, b)
  {
    hide ProcessEvent;
    var x, y := At(o, a), At(o, b);
    assert [[x, y]][1..] == [] && [x, y][1..] == [y] && [y][1..] == [];
    var s := StepOf(o, Initial(0, 0), a);
    if !s.stopped {
      var t := StepOf(o, s, b);
      assert ProcessLog(o, t, [], None) == t;
      assert ProcessLog(o, s, [y], None) == t;
    }
  }

  lemma RunThree(o: Options, a: Kind, b: Kind, c: Kind)
    ensures var s := StepOf(o, Initial(0, 0), a);
            var t := StepOf(o, s, b);
            !s.stopped && !t.stopped ==>
              ProcessLogs(o, Initial(0, 0), [[At(o, a), At(o, b), At(o, c)]], None) == StepOf(o, t, c)
  {
    hide ProcessEvent;
    var x, y, z := At(o, a), At(o, b), At(o, c);
    assert [[x, y, z]][1..] == [] && [x, y, z][1..] == [y, z] && [y, z][1..] == [z] && [z][1..] == [];
    var s := StepOf(o, Initial(0, 0), a);
    var t := StepOf(o, s, b);
    if !s.stopped && !t.stopped {
      var u := StepOf(o, t, c);
      assert ProcessLog(o, u, [], None) == u;
      assert ProcessLog(o, t, [z], None) == u;
      assert ProcessLog(o, s, [y, z], None) == u;
    }
  }

  /** The state after a query that no filter drops. */
  lemma QueryPrinted(o: Options, v: Parser, s: State, q: string)
    requires Running(s) && o.stopDatetime > 0
    ensures var t := StepOf(o, s, Asked(o, q));
            && Running(t) && After(v, t) == BinlogServer.Run(After(v, s), v(q))
            && t.inTransaction == (!EndsGroup(q) && (StartsGroup(q) || s.inTransaction))
            && t.seenGtid == (!EndsGroup(q) && s.seenGtid && (StartsGroup(q) || s.inTransaction))
            && (t.skipped ==> s.skipped)
  {
    hide ProcessEvent, Reading, EndsGroup, StartsGroup, IsTransKeyword, BinlogServer.Run;
    var k, c := Asked(o, q), s.(recCount := s.recCount + 1);
    Reaching(o, s, k);
    assert !OtherDatabase(o, k.db);
    QueryAfter(v, c, k, false, StartsGroup(q), EndsGroup(q));
    QueryFlagsAre(c, k, false, StartsGroup(q), EndsGroup(q));
    SameOutput(v, s, c);
  }

  lemma GtidPrinted(o: Options, v: Parser, s: State, g: Gtid)
    requires Running(s) && o.stopDatetime > 0 && !o.skipGtids && !Unwanted(o, g) && !s.skipped
    ensures var t := StepOf(o, s, GtidEvent(g, false));
            && Running(t) && After(v, t) == After(v, s).(gtid := Numbered) && t.inTransaction == s.inTransaction && t.seenGtid && !t.skipped
            && t.ignored == s.ignored
  {
    hide ProcessEvent, Reading, Unwanted, LooksOpen;
    var k, c := GtidEvent(g, false), s.(recCount := s.recCount + 1);
    Reaching(o, s, k);
    SameOutput(v, s, c);
    GtidAfter(v, c, k);
  }

  lemma Start(v: Parser)
    ensures var s := Initial(0, 0); Running(s) && After(v, s) == CLOSED && !s.inTransaction && !s.seenGtid && !s.skipped && s.ignored == {}
  {
  }

  // ----- failing runs ------------------------------------------------------------------------------

  /** Everything off: what the session has open stays open. */
  lemma NothingAdded(o: Options, v: Parser, s: State)
    requires !s.inTransaction && !s.seenGtid && !s.skipped
    ensures After(v, Finish(o, s)) == After(v, s)
  {
    hide Reading, EndBinlog;
    EndBinlogAfter(v, o, s);
  }

  /** A log that is cut off behind an XA START: the ROLLBACK that is added is refused. */
  lemma CutInsideXa(o: Options, v: Parser, q: string)
    requires v(q).XaStart? && o.stopDatetime > 0
    ensures InXa(After(v, Dump(o, 0, 0, [[At(o, Asked(o, q))]], None)))
  {
    hide ProcessEvent, ProcessLogs, Reading, StartsGroup, EndsGroup, Initial, EndBinlog, StepOf;
    Start(v);
    QueryPrinted(o, v, Initial(0, 0), q);
    RunOne(o, Asked(o, q));
    var s := ProcessLogs(o, Initial(0, 0), [[At(o, Asked(o, q))]], None);
    EndBinlogAfter(v, o, s);
    var t := s.(output := s.output + [AddedCommit]);
    CommitAdded(v, s);
    EndBinlogAfter(v, o, t);
  }

  /** A transaction that begins with words that do not show it. */
  lemma BegunUnseen(o: Options, v: Parser, b: string)
    requires v(b).Begin? && !ReadsStart(b) && o.stopDatetime > 0
    ensures var logs := [[At(o, Asked(o, b))]];
            After(v, Dump(o, 0, 0, logs, None)).open == Plain
  {
    hide ProcessEvent, ProcessLogs, Reading, StartsGroup, EndsGroup, Initial, EndBinlog, StepOf;
    Start(v);
    QueryPrinted(o, v, Initial(0, 0), b);
    RunOne(o, Asked(o, b));
    NothingAdded(o, v, StepOf(o, Initial(0, 0), Asked(o, b)));
  }

  /** An end that is refused inside a plain transaction, which the printer takes for closed. */
  lemma RefusedEnd(o: Options, v: Parser, b: string, x: string)
    requires v(b).Begin? && ReadsStart(b) && EndsGroup(x) && !v(x).End? && !v(x).Commits? && o.stopDatetime > 0
    ensures var logs := [[At(o, Asked(o, b)), At(o, Asked(o, x))]];
            var s := ProcessLogs(o, Initial(0, 0), logs, None);
            After(v, s).open == Plain && !s.inTransaction && After(v, Dump(o, 0, 0, logs, None)).open == Plain
  {
    hide ProcessEvent, ProcessLogs, Reading, StartsGroup, EndsGroup, Initial, EndBinlog, StepOf;
    Start(v);
    QueryPrinted(o, v, Initial(0, 0), b);
    var t := StepOf(o, Initial(0, 0), Asked(o, b));
    QueryPrinted(o, v, t, x);
    RunTwo(o, Asked(o, b), Asked(o, x));
    NothingAdded(o, v, StepOf(o, t, Asked(o, x)));
  }

  /** An implicit commit that reads like an end: with a GTID it is refused. */
  lemma RefusedCommit(o: Options, v: Parser, g: Gtid, b: string, x: string)
    requires v(b).Begin? && ReadsStart(b) && EndsGroup(x) && v(x).Commits?
    requires o.stopDatetime > 0 && !o.skipGtids && !Unwanted(o, g)
    ensures var logs := [[At(o, GtidEvent(g, false)), At(o, Asked(o, b)), At(o, Asked(o, x))]];
            var s := ProcessLogs(o, Initial(0, 0), logs, None);
            After(v, s).open == Plain && !s.inTransaction && After(v, Dump(o, 0, 0, logs, None)).open == Plain
  {
    hide ProcessEvent, ProcessLogs, Reading, StartsGroup, EndsGroup, Initial, EndBinlog, StepOf, Unwanted;
    Start(v);
    GtidPrinted(o, v, Initial(0, 0), g);
    var s := StepOf(o, Initial(0, 0), GtidEvent(g, false));
    QueryPrinted(o, v, s, b);
    var t := StepOf(o, s, Asked(o, b));
    QueryPrinted(o, v, t, x);
    RunThree(o, GtidEvent(g, false), Asked(o, b), Asked(o, x));
    NothingAdded(o, v, StepOf(o, t, Asked(o, x)));
  }

  // ----- everything is closed ----------------------------------------------------------------------------

  /** Every run with these options on every log with these query texts leaves nothing open. */
  ghost predicate AlwaysCloses(o: Options, v: Parser, texts: set<string>) {
    forall offset: nat, start: nat, logs: seq<seq<Event>>, stop: Option<nat> | Within(texts, true, logs) ::
      After(v, Dump(o, offset, start, logs, stop)) == CLOSED
  }

  /** On such logs every run closes everything. */
  lemma DumpClosesEverything(o: Options, v: Parser, texts: set<string>, offset: nat, start: nat, logs: seq<seq<Event>>, stop: Option<nat>)
    requires ClosingWords(o, v, texts) && Within(texts, true, logs)
    ensures After(v, Dump(o, offset, start, logs, stop)) == CLOSED
  {
    hide Reading, GtidsPass, NoBegin, Within, ClosingWords, ProcessLogs, LooksOpen, Dump, Initial;
    RunIsHolding(Seeing, o, v, texts, true, offset, start, logs, stop);
    DumpClosesIff(o, v, offset, start, logs, stop);
  }

  /** Nothing is printed when --stop-datetime is at the beginning of time. */
  lemma {:induction false} NothingPrinted(o: Options, s: State, log: seq<Event>, stop: Option<nat>)
    requires o.stopDatetime == 0
    ensures var t := ProcessLog(o, s, log, stop);
            && t.output == s.output && t.inTransaction == s.inTransaction && t.seenGtid == s.seenGtid && t.skipped == s.skipped
    decreases |log|
  {
    hide FilterAndProcess, TooEarly, OtherServer;
    if log != [] && !s.stopped {
      CountedSame(s, log[0]);
      NothingPrinted(o, ProcessEvent(o, s, log[0], stop), log[1..], stop);
    }
  }

  lemma {:induction false} NothingPrintedAll(o: Options, s: State, logs: seq<seq<Event>>, stop: Option<nat>)
    requires o.stopDatetime == 0
    ensures var t := ProcessLogs(o, s, logs, stop);
            && t.output == s.output && t.inTransaction == s.inTransaction && t.seenGtid == s.seenGtid && t.skipped == s.skipped
    decreases |logs|
  {
    hide ProcessLog;
    if logs != [] && !s.stopped {
      var at := if |logs| == 1 then stop else None;
      NothingPrinted(o, s, logs[0], at);
      NothingPrintedAll(o, ProcessLog(o, s, logs[0], at), logs[1..], stop);
    }
  }

  lemma NothingToClose(o: Options, v: Parser, offset: nat, start: nat, logs: seq<seq<Event>>, stop: Option<nat>)
    requires o.stopDatetime == 0
    ensures var s := ProcessLogs(o, Initial(offset, start), logs, stop);
            After(v, s) == CLOSED && !s.inTransaction && !s.seenGtid && After(v, Dump(o, offset, start, logs, stop)) == CLOSED
  {
    hide ProcessLogs, Reading, EndBinlog;
    var i := Initial(offset, start);
    NothingPrintedAll(o, i, logs, stop);
    Starts(o, v, offset, start);
    var s := ProcessLogs(o, i, logs, stop);
    SameOutput(v, i, s);
    NothingAdded(o, v, s);
  }

  lemma OneLogWithin(texts: set<string>, bare: bool, log: seq<Event>)
    requires LogWithin(texts, bare, log)
    ensures Within(texts, bare, [log])
  {
    hide LogWithin;
  }

  /** A run that leaves something open. */
  lemma OpenRun(o: Options, v: Parser, texts: set<string>) returns (log: seq<Event>)
    requires !ClosingWords(o, v, texts) && o.stopDatetime > 0
    ensures LogWithin(texts, true, log) && After(v, Dump(o, 0, 0, [log], None)) != CLOSED
  {
    hide Reading, ProcessLogs, Initial, Dump, Unwanted, EndsGroup, StartsGroup;
    if q :| q in texts && !Seen(v, q) {
      log := [At(o, Asked(o, q))];
      if v(q).XaStart? { CutInsideXa(o, v, q); } else { BegunUnseen(o, v, q); }
    } else {
      var b :| b in texts && v(b).Begin?;
      var x :| x in texts && !EndIsEnd(o, v, x);
      assert Seen(v, b);
      if v(x).Commits? {
        var g: Gtid :| !Unwanted(o, g);
        log := [At(o, GtidEvent(g, false)), At(o, Asked(o, b)), At(o, Asked(o, x))];
        RefusedCommit(o, v, g, b, x);
      } else {
        log := [At(o, Asked(o, b)), At(o, Asked(o, x))];
        RefusedEnd(o, v, b, x);
      }
    }
  }

  /**
   Whatever the filters and wherever the input is cut off, the printed file leaves
   nothing open, if and only if every transaction that a statement of the log begins
   is a plain one and shows, and with such a transaction every statement that reads
   like an end is one; or the options print nothing at all.
   */
  lemma ClosesIff(o: Options, v: Parser, texts: set<string>)
    ensures AlwaysCloses(o, v, texts) <==> o.stopDatetime == 0 || ClosingWords(o, v, texts)
  {
    hide Reading, Dump, ProcessLogs, Within, LogWithin, ClosingWords;
    if o.stopDatetime == 0 {
      forall offset: nat, start: nat, logs: seq<seq<Event>>, stop: Option<nat> | Within(texts, true, logs)
        ensures After(v, Dump(o, offset, start, logs, stop)) == CLOSED
      {
        NothingToClose(o, v, offset, start, logs, stop);
      }
    } else if ClosingWords(o, v, texts) {
      forall offset: nat, start: nat, logs: seq<seq<Event>>, stop: Option<nat> | Within(texts, true, logs)
        ensures After(v, Dump(o, offset, start, logs, stop)) == CLOSED
      {
        DumpClosesEverything(o, v, texts, offset, start, logs, stop);
      }
    } else {
      var log := OpenRun(o, v, texts);
      OneLogWithin(texts, true, log);
    }
  }

  // ----- the flags are exact -----------------------------------------------------------------------------

  /** The flag is wrong about the transaction. */
  predicate Wrong(v: Parser, s: State) {
    After(v, s).open.Nothing? <==> s.inTransaction
  }

  /** XA START and then an XID: refused, but the printer takes the transaction for closed. */
  lemma RefusedXid(o: Options, v: Parser, q: string)
    requires v(q).XaStart? && o.stopDatetime > 0
    ensures Wrong(v, ProcessLogs(o, Initial(0, 0), [[At(o, Asked(o, q)), At(o, Xid)]], None))
  {
    hide ProcessEvent, ProcessLogs, Reading, StartsGroup, EndsGroup, Initial;
    Start(v);
    QueryPrinted(o, v, Initial(0, 0), q);
    var t := StepOf(o, Initial(0, 0), Asked(o, q));
    var c := t.(recCount := t.recCount + 1);
    Reaching(o, t, Xid);
    Prints(v, c.(inTransaction := false, skipped := false, seenGtid := false), Xid);
    SameOutput(v, t, c.(inTransaction := false, skipped := false, seenGtid := false));
    RunTwo(o, Asked(o, q), Xid);
  }

  /** A text that begins a transaction or reads like the begin of one, but not both. */
  lemma Misread(o: Options, v: Parser, q: string)
    requires !v(q).XaStart? && (v(q).Begin? <==> !ReadsStart(q)) && o.stopDatetime > 0
    ensures Wrong(v, ProcessLogs(o, Initial(0, 0), [[At(o, Asked(o, q))]], None))
  {
    hide ProcessEvent, ProcessLogs, Reading, StartsGroup, EndsGroup, Initial, StepOf;
    Start(v);
    QueryPrinted(o, v, Initial(0, 0), q);
    RunOne(o, Asked(o, q));
  }

  /** Inside a transaction, one that ends it or reads like its end, but not both; or an implicit commit. */
  lemma MisreadEnd(o: Options, v: Parser, b: string, x: string)
    requires v(b).Begin? && ReadsStart(b) && !v(x).XaStart? && (v(x).Begin? ==> ReadsStart(x)) && o.stopDatetime > 0
    requires if v(x).Commits? then !EndsGroup(x) else EndsGroup(x) <==> !v(x).End?
    ensures Wrong(v, ProcessLogs(o, Initial(0, 0), [[At(o, Asked(o, b)), At(o, Asked(o, x))]], None))
  {
    hide ProcessEvent, ProcessLogs, Reading, StartsGroup, EndsGroup, Initial, StepOf;
    Start(v);
    QueryPrinted(o, v, Initial(0, 0), b);
    var t := StepOf(o, Initial(0, 0), Asked(o, b));
    QueryPrinted(o, v, t, x);
    RunTwo(o, Asked(o, b), Asked(o, x));
  }

  /** --database: a COMMIT is added before the next GTID, but the printer believes the transaction still open. */
  lemma AddedCommitUnnoticed(o: Options, v: Parser, b: string, g: Gtid)
    requires v(b).Begin? && ReadsStart(b) && o.stopDatetime > 0 && o.database.Some? && !o.skipGtids && !Unwanted(o, g)
    ensures var other := o.database.value + "x";
            var s := ProcessLogs(o, Initial(0, 0), [[At(o, Asked(o, b)), At(o, TableMap(other, 0)), At(o, GtidEvent(g, false))]], None);
            s.inTransaction && After(v, s).open == Nothing
  {
    hide ProcessEvent, ProcessLogs, Reading, StartsGroup, EndsGroup, Initial, Unwanted, LooksOpen;
    var other := o.database.value + "x";
    Start(v);
    QueryPrinted(o, v, Initial(0, 0), b);
    var t := StepOf(o, Initial(0, 0), Asked(o, b));
    Reaching(o, t, TableMap(other, 0));
    var u := StepOf(o, t, TableMap(other, 0));
    SameOutput(v, t, u);
    Reaching(o, u, GtidEvent(g, false));
    var c := u.(recCount := u.recCount + 1);
    SameOutput(v, u, c);
    GtidAfter(v, c, GtidEvent(g, false));
    RunThree(o, Asked(o, b), TableMap(other, 0), GtidEvent(g, false));
  }

  /** A GTID whose statement is an event of another kind: done, but the printer waits for a query. */
  lemma BareStatement(o: Options, v: Parser, g: Gtid)
    requires o.stopDatetime > 0 && !o.skipGtids && !Unwanted(o, g)
    ensures var s := ProcessLogs(o, Initial(0, 0), [[At(o, GtidEvent(g, false)), At(o, Rows(0, true))]], None);
            s.seenGtid && After(v, s).gtid.NoGtid?
  {
    hide ProcessEvent, ProcessLogs, Reading, Unwanted;
    Start(v);
    GtidPrinted(o, v, Initial(0, 0), g);
    var t := StepOf(o, Initial(0, 0), GtidEvent(g, false));
    Reaching(o, t, Rows(0, true));
    var d := t.(recCount := t.recCount + 1);
    Prints(v, d.(ignored := {}), Rows(0, true));
    SameOutput(v, t, d.(ignored := {}));
    RunTwo(o, GtidEvent(g, false), Rows(0, true));
  }

  // ----- exactly when -----------------------------------------------------------------------------------------

  /** In every run the flag says whether the printed file has a transaction open. */
  ghost predicate AlwaysOpenExact(o: Options, v: Parser, texts: set<string>) {
    forall offset: nat, start: nat, logs: seq<seq<Event>>, stop: Option<nat> | Within(texts, true, logs) ::
      !Wrong(v, ProcessLogs(o, Initial(offset, start), logs, stop))
  }

  /** Both flags say exactly what the printed file has left open. */
  predicate Right(v: Parser, s: State) {
    !Wrong(v, s) && (After(v, s).gtid.NoGtid? <==> !s.seenGtid)
  }

  ghost predicate AlwaysExact(o: Options, v: Parser, texts: set<string>, bare: bool) {
    forall offset: nat, start: nat, logs: seq<seq<Event>>, stop: Option<nat> | Within(texts, bare, logs) ::
      Right(v, ProcessLogs(o, Initial(offset, start), logs, stop))
  }

  /** A run in which the flag of the transaction is wrong, with no event of another kind that ends a GTID. */
  lemma WrongRun(o: Options, v: Parser, texts: set<string>) returns (log: seq<Event>)
    requires !ExactWords(o, v, texts) && o.stopDatetime > 0
    ensures LogWithin(texts, false, log) && Wrong(v, ProcessLogs(o, Initial(0, 0), [log], None))
  {
    hide Reading, ProcessLogs, Initial, Dump, Unwanted, EndsGroup, StartsGroup;
    if q :| q in texts && !Started(v, q) {
      if v(q).XaStart? {
        log := [At(o, Asked(o, q)), At(o, Xid)];
        RefusedXid(o, v, q);
      } else {
        log := [At(o, Asked(o, q))];
        Misread(o, v, q);
      }
    } else {
      var b :| b in texts && v(b).Begin?;
      assert Started(v, b);
      if x :| x in texts && !Ended(o, v, x) {
        assert Started(v, x);
        if v(x).Commits? && EndsGroup(x) {
          var g: Gtid :| !Unwanted(o, g);
          log := [At(o, GtidEvent(g, false)), At(o, Asked(o, b)), At(o, Asked(o, x))];
          RefusedCommit(o, v, g, b, x);
        } else {
          log := [At(o, Asked(o, b)), At(o, Asked(o, x))];
          MisreadEnd(o, v, b, x);
        }
      } else {
        var g: Gtid :| !Unwanted(o, g);
        log := [At(o, Asked(o, b)), At(o, TableMap(o.database.value + "x", 0)), At(o, GtidEvent(g, false))];
        AddedCommitUnnoticed(o, v, b, g);
      }
    }
  }

  lemma HoldingIsRight(claim: Claim, o: Options, v: Parser, texts: set<string>, s: State)
    requires Holding(claim, o, v, texts, s) && !claim.Seeing?
    ensures !Wrong(v, s) && (claim.BothExact? ==> Right(v, s))
  {
    hide Reading, GtidsPass, NoBegin;
  }

  lemma NothingWrong(v: Parser, s: State)
    requires After(v, s) == CLOSED && !s.inTransaction && !s.seenGtid
    ensures Right(v, s)
  {
  }

  /**
   The flag of the transaction is right in every run, if and only if server and printer
   agree about which statements begin a transaction and, with such a statement, about
   which end one, no statement commits implicitly, and --database is not given while
   GTIDs are printed; or nothing is printed at all.
   */
  lemma OpenExactIff(o: Options, v: Parser, texts: set<string>)
    ensures AlwaysOpenExact(o, v, texts) <==> o.stopDatetime == 0 || ExactWords(o, v, texts)
  {
    hide Reading, ProcessLogs, Within, LogWithin, Initial, Dump, ExactWords, Holding, Kept, Wrong;
    if o.stopDatetime == 0 || ExactWords(o, v, texts) {
      forall offset: nat, start: nat, logs: seq<seq<Event>>, stop: Option<nat> | Within(texts, true, logs)
        ensures !Wrong(v, ProcessLogs(o, Initial(offset, start), logs, stop))
      {
        var s := ProcessLogs(o, Initial(offset, start), logs, stop);
        if o.stopDatetime == 0 {
          NothingToClose(o, v, offset, start, logs, stop);
          NothingWrong(v, s);
        } else {
          RunIsHolding(Exact, o, v, texts, true, offset, start, logs, stop);
          HoldingIsRight(Exact, o, v, texts, s);
        }
      }
    } else {
      var log := WrongRun(o, v, texts);
      LogsWiden(texts, true, log);
    }
  }

  lemma LogsWiden(texts: set<string>, bare: bool, log: seq<Event>)
    requires LogWithin(texts, false, log)
    ensures Within(texts, bare, [log])
  {
    hide Standalone;
    assert LogWithin(texts, bare, log);
  }

  /** Both flags are right in every run, if and only if besides no row, load or XA prepare event meets a printed GTID. */
  lemma ExactIff(o: Options, v: Parser, texts: set<string>, bare: bool)
    ensures AlwaysExact(o, v, texts, bare) <==> o.stopDatetime == 0 || (ExactWords(o, v, texts) && (GtidsPass(o) ==> !bare))
  {
    hide Reading, ProcessLogs, Within, LogWithin, Initial, Dump, ExactWords, Holding, Kept, Wrong, Unwanted;
    if o.stopDatetime == 0 || (ExactWords(o, v, texts) && (GtidsPass(o) ==> !bare)) {
      forall offset: nat, start: nat, logs: seq<seq<Event>>, stop: Option<nat> | Within(texts, bare, logs)
        ensures Right(v, ProcessLogs(o, Initial(offset, start), logs, stop))
      {
        var s := ProcessLogs(o, Initial(offset, start), logs, stop);
        if o.stopDatetime == 0 {
          NothingToClose(o, v, offset, start, logs, stop);
          NothingWrong(v, s);
        } else {
          RunIsHolding(BothExact, o, v, texts, bare, offset, start, logs, stop);
          HoldingIsRight(BothExact, o, v, texts, s);
        }
      }
    } else if !ExactWords(o, v, texts) {
      var log := WrongRun(o, v, texts);
      LogsWiden(texts, bare, log);
    } else {
      var g: Gtid :| !Unwanted(o, g);
      BareStatement(o, v, g);
      BareWithin(texts, o, g);
    }
  }

  lemma BareWithin(texts: set<string>, o: Options, g: Gtid)
    ensures Within(texts, true, [[At(o, GtidEvent(g, false)), At(o, Rows(0, true))]])
  {
  }
}
