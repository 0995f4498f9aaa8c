/**
 The printer prints exactly what the events call for: over any number of files, with all
 filters and wherever the input stops, its output is the one told from the events alone.
 */
module BinlogOutput {
  import opened Wrappers
  import opened Sequences
  import opened BinlogPrinter
  import opened BinlogHistory
  import opened BinlogFilter

  // ----- one event further -----------------------------------------------------------------------------

  lemma OpenNext(past: seq<Kind>, k: Kind)
    ensures Open(past + [k]) <==> Starts()(past, k) || (Open(past) && !Ends()(past, k))
  {
    hide Since;
    SinceNext(past, k, Starts(), Ends());
  }

  lemma AwaitingNext(past: seq<Kind>, k: Kind)
    ensures Awaiting(past + [k]) <==> k.GtidEvent? || (Awaiting(past) && !Ends()(past, k) && !Alone(past, k))
  {
    hide Since;
    SinceNext(past, k, IsGtid(), Uses());
  }

  lemma IncompleteNext(o: Options, past: seq<Kind>, k: Kind)
    ensures Incomplete(o, past + [k]) <==>
            || (LeftOut(o, past, k) && !Replaced(o, past, k))
            || (Incomplete(o, past) && !MakesGood(o)(past, k))
  {
    hide Since, LeftOut, Replaced;
    SinceNext(past, k, Drops(o), MakesGood(o));
  }

  lemma IgnoredNext(o: Options, past: seq<Kind>, k: Kind, id: nat)
    ensures Ignored(o, past + [k], id) <==>
            (k.TableMap? && k.tableId == id && Foreign(o, k.db)) || (Ignored(o, past, id) && !(k.Rows? && k.stmtEnd))
  {
    hide Since;
    SinceNext(past, k, MapsForeign(o, id), EndsStatement());
  }

  lemma CreatedNext(o: Options, past: seq<Kind>, k: Kind, id: nat)
    ensures Created(o, past + [k], id) <==>
            Creates(o, k, id) || (Created(o, past, id) && !BeginsLoad(k, id) && !(k.ExecLoad? && k.fileId == id))
  {
    hide Since;
    SinceNext(past, k, CreatesFile(o, id), TakesCreated(id));
  }

  lemma BegunNext(o: Options, past: seq<Kind>, k: Kind, id: nat)
    ensures Begun(o, past + [k], id) <==>
            BeginsLoad(k, id) || (Begun(o, past, id) && !Creates(o, k, id) && !(k.ExecuteLoadQuery? && k.fileId == id))
  {
    hide Since;
    SinceNext(past, k, BeginsFile(id), TakesBegun(o, id));
  }

  lemma OutputNext(o: Options, past: seq<Kind>, k: Kind)
    ensures Output(o, past + [k]) == Output(o, past) + Writes(o, past, k)
    ensures Waiting(past + [k]) == if k.Query? then [] else Waiting(past) + if k.Buffered? then [Printed(k)] else []
  {
    hide Writes;
    assert (past + [k])[..|past|] == past;
  }

  /** No log has begun yet. */
  predicate NoLogYet(past: seq<Kind>) {
    forall i | i in past :: !(i.FormatDescription? && !i.relay)
  }

  lemma NoLogNext(past: seq<Kind>, k: Kind)
    ensures NoLogYet(past + [k]) <==> NoLogYet(past) && !(k.FormatDescription? && !k.relay)
    ensures NewLog(past, k) <==> k.FormatDescription? && !k.relay && k.logPos > 0 && !NoLogYet(past)
  {
    if NoLogYet(past + [k]) {
      assert k in past + [k];
      forall i | i in past ensures !(i.FormatDescription? && !i.relay) { assert i in past + [k]; }
    }
  }

  // ----- the state of the program tells the history ------------------------------------------------------

  /** The flags. */
  ghost predicate FlagsTell(o: Options, past: seq<Kind>, s: State) {
    && s.inTransaction == Open(past) && s.seenGtid == Awaiting(past) && s.skipped == Incomplete(o, past)
    && s.isFirstFd == NoLogYet(past)
  }

  ghost predicate IdTells(o: Options, past: seq<Kind>, s: State, id: nat) {
    && (id in s.ignored <==> Ignored(o, past, id))
    && (Holds(s, id, true) <==> Created(o, past, id)) && (Holds(s, id, false) <==> Begun(o, past, id))
  }

  /** The tables and files that are remembered. */
  ghost predicate IdsTell(o: Options, past: seq<Kind>, s: State) {
    forall id: nat :: IdTells(o, past, s, id)
  }

  ghost predicate Tells(o: Options, past: seq<Kind>, s: State) {
    FlagsTell(o, past, s) && IdsTell(o, past, s) && s.output == Output(o, past) && AsPrinted(s.buffered) == Waiting(past)
  }

  lemma {:induction false} AsPrintedNext(values: seq<string>, v: string)
    ensures AsPrinted(values + [v]) == AsPrinted(values) + [Printed(Buffered(v))]
  {
    if values == [] {
      assert ([] + [v])[1..] == [];
    } else {
      assert (values + [v])[1..] == values[1..] + [v];
      AsPrintedNext(values[1..], v);
    }
  }

  /** The text begins with the word, in letters of either case. */
  predicate Says(q: string, word: string) {
    |word| <= |q| && forall i | 0 <= i < |word| :: q[i] == word[i] || ('A' <= word[i] <= 'Z' && q[i] as int == word[i] as int + 32)
  }

  predicate Capital(word: string) {
    forall ch | ch in word :: ch == ' ' || 'A' <= ch <= 'Z'
  }

  lemma {:induction false} SaysIff(q: string, word: string)
    requires Capital(word)
    ensures CasePrefix(word, q) <==> Says(q, word)
  {
    if word != "" && q != "" {
      assert word[0] in word && forall ch | ch in word[1..] :: ch in word;
      SaysIff(q[1..], word[1..]);
      assert Says(q, word) <==> Says(q, [word[0]]) && Says(q[1..], word[1..]);
    }
  }

  /** The statements that --database never leaves out. */
  lemma KeywordsIff(q: string)
    ensures IsTransKeyword(q) <==>
            || q <= "BEGIN" || q <= "COMMIT" || Says(q, "SAVEPOINT") || Says(q, "ROLLBACK")
            || Says(q, "XA START") || Says(q, "XA END") || Says(q, "XA PREPARE") || Says(q, "XA COMMIT") || Says(q, "XA ROLLBACK")
  {
    hide CasePrefix, Says;
    SaysIff(q, "SAVEPOINT");
    SaysIff(q, "ROLLBACK");
    SaysIff(q, "XA START");
    SaysIff(q, "XA END");
    SaysIff(q, "XA PREPARE");
    SaysIff(q, "XA COMMIT");
    SaysIff(q, "XA ROLLBACK");
  }

  /** What starts or ends a group is a keyword of transactions, and never left out. */
  lemma GroupWords(q: string)
    ensures StartsGroup(q) || EndsGroup(q) ==> IsTransKeyword(q)
  {
    if "XA START" <= q { SameCase("XA START", q); }
    if "XA ROLLBACK" <= q { SameCase("XA ROLLBACK", q); }
  }

  lemma {:induction false} SameCase(word: string, q: string)
    requires word <= q
    ensures CasePrefix(word, q)
  {
    if word != "" { SameCase(word[1..], q[1..]); }
  }

  // ----- queries --------------------------------------------------------------------------------------------

  lemma QueryPrints(s: State, k: Kind, skips: bool, starts: bool, ends: bool)
    ensures var r := QueryStep(s, k, skips, starts, ends);
            && r.isFirstFd == s.isFirstFd && r.ignored == s.ignored && r.loads == s.loads && r.buffered == []
            && r.output == s.output + (if !skips then AsPrinted(s.buffered) + [Printed(k)]
                                       else if CommitsSkipped(s, starts, ends) then [AddedCommit] else [])
  {
    hide AsPrinted;
    var t := ReleaseBuffered(s, skips);
    if skips {
      assert s.output + [] == s.output;
    } else {
      Assoc(s.output, AsPrinted(s.buffered), [Printed(k)]);
      FlagsOnly(t, starts, ends);
    }
  }

  lemma FlagsOnly(s: State, starts: bool, ends: bool)
    ensures var r := QueryFlags(s, starts, ends);
            r.isFirstFd == s.isFirstFd && r.ignored == s.ignored && r.loads == s.loads && r.buffered == s.buffered && r.output == s.output
  {
  }

  /** What a query does to the flags. */
  lemma QueryIs(s: State, k: Kind, skips: bool, starts: bool, ends: bool)
    ensures var r := QueryStep(s, k, skips, starts, ends);
            && (skips ==> r.inTransaction == s.inTransaction && r.seenGtid == (s.seenGtid && !CommitsSkipped(s, starts, ends))
                          && r.skipped == !CommitsSkipped(s, starts, ends))
            && (!skips && ends ==> !r.inTransaction && !r.seenGtid && !r.skipped)
            && (!skips && !ends && starts ==> r.inTransaction && r.seenGtid == s.seenGtid && r.skipped == s.skipped)
            && (!skips && !ends && !starts ==>
                  r.inTransaction == s.inTransaction && r.seenGtid == (s.seenGtid && s.inTransaction) && r.skipped == s.skipped)
  {
    hide AsPrinted;
    if !skips { WrittenFlags(s, starts, ends); }
  }

  lemma WrittenFlags(s: State, starts: bool, ends: bool)
    ensures var r := QueryFlags(ReleaseBuffered(s, false), starts, ends);
            && (ends ==> !r.inTransaction && !r.seenGtid && !r.skipped)
            && (!ends && starts ==> r.inTransaction && r.seenGtid == s.seenGtid && r.skipped == s.skipped)
            && (!ends && !starts ==>
                  r.inTransaction == s.inTransaction && r.seenGtid == (s.seenGtid && s.inTransaction) && r.skipped == s.skipped)
  {
    hide AsPrinted;
  }

  lemma QueryFlagsTell(o: Options, past: seq<Kind>, s: State, k: Kind)
    requires k.Query? && FlagsTell(o, past, s)
    ensures FlagsTell(o, past + [k], ProcessQuery(o, s, k))
  {
    hide Open, Awaiting, Incomplete, NoLogYet, StartsGroup, EndsGroup, IsTransKeyword, QueryStep, NewLog;
    OpenNext(past, k);
    AwaitingNext(past, k);
    IncompleteNext(o, past, k);
    NoLogNext(past, k);
    GroupWords(k.query);
    QueryIs(s, k, !IsTransKeyword(k.query) && OtherDatabase(o, k.db), StartsGroup(k.query), EndsGroup(k.query));
    QueryPrints(s, k, !IsTransKeyword(k.query) && OtherDatabase(o, k.db), StartsGroup(k.query), EndsGroup(k.query));
  }

  lemma QueryWrites(o: Options, past: seq<Kind>, s: State, k: Kind)
    requires k.Query? && Tells(o, past, s)
    ensures var r := ProcessQuery(o, s, k);
            r.output == Output(o, past + [k]) && AsPrinted(r.buffered) == Waiting(past + [k]) && r.ignored == s.ignored && r.loads == s.loads
  {
    hide Open, Awaiting, Incomplete, NoLogYet, StartsGroup, EndsGroup, IsTransKeyword, QueryStep, NewLog, Output, Waiting, IdsTell;
    OutputNext(o, past, k);
    NoLogNext(past, k);
    GroupWords(k.query);
    QueryPrints(s, k, !IsTransKeyword(k.query) && OtherDatabase(o, k.db), StartsGroup(k.query), EndsGroup(k.query));
    assert [] + [AddedCommit] == [AddedCommit] && [AddedCommit] + [] == [AddedCommit];
    assert [] + (Waiting(past) + [Printed(k)]) == Waiting(past) + [Printed(k)];
  }

  // ----- what leaves transactions alone ------------------------------------------------------------------------

  /** Kinds that neither begin nor end a transaction, and use no GTID. */
  predicate Inert(k: Kind) {
    !k.Query? && !k.GtidEvent? && !k.Xid? && !k.FormatDescription?
  }

  /** The state behind such an event, which remembers what was left out and prints the rest. */
  ghost predicate InertStep(o: Options, past: seq<Kind>, s: State, k: Kind, r: State) {
    && r.inTransaction == s.inTransaction && r.seenGtid == s.seenGtid && r.isFirstFd == s.isFirstFd
    && r.skipped == (s.skipped || LeftOut(o, past, k))
    && r.output == s.output + (if IsPrinted(o, past, k) then [Printed(k)] else [])
    && r.buffered == s.buffered + (if k.Buffered? then [k.value] else [])
  }

  lemma InertTells(o: Options, past: seq<Kind>, s: State, k: Kind, r: State)
    requires Inert(k) && Tells(o, past, s) && InertStep(o, past, s, k, r)
    ensures FlagsTell(o, past + [k], r) && r.output == Output(o, past + [k]) && AsPrinted(r.buffered) == Waiting(past + [k])
  {
    hide Open, Awaiting, Incomplete, NoLogYet, NewLog, Output, Waiting, IdsTell, LeftOut, IsPrinted, AsPrinted;
    OpenNext(past, k);
    AwaitingNext(past, k);
    IncompleteNext(o, past, k);
    NoLogNext(past, k);
    OutputNext(o, past, k);
    assert [] + [Printed(k)] == [Printed(k)];
    if k.Buffered? {
      AsPrintedNext(s.buffered, k.value);
    } else {
      assert s.buffered + [] == s.buffered && Waiting(past) + [] == Waiting(past);
    }
  }

  /** Nothing is remembered or forgotten. */
  lemma IdsSame(o: Options, past: seq<Kind>, s: State, k: Kind, r: State)
    requires IdsTell(o, past, s) && r.ignored == s.ignored && r.loads == s.loads
    requires !k.TableMap? && !k.Rows? && !IsLoad(k)
    ensures IdsTell(o, past + [k], r)
  {
    hide Ignored, Created, Begun;
    forall id: nat ensures IdTells(o, past + [k], r, id) {
      assert IdTells(o, past, s, id);
      IgnoredNext(o, past, k, id);
      CreatedNext(o, past, k, id);
      BegunNext(o, past, k, id);
    }
  }

  /** What such an event may do, but for what is remembered. */
  predicate Plain(s: State, k: Kind, left: bool, printed: bool, r: State) {
    && r.inTransaction == s.inTransaction && r.seenGtid == s.seenGtid && r.isFirstFd == s.isFirstFd && r.buffered == s.buffered
    && r.skipped == (s.skipped || left) && r.output == (if printed then s.output + [Printed(k)] else s.output)
  }

  lemma PlainStep(o: Options, past: seq<Kind>, s: State, k: Kind, r: State)
    requires !k.Buffered? && Plain(s, k, LeftOut(o, past, k), IsPrinted(o, past, k), r)
    ensures InertStep(o, past, s, k, r)
  {
    hide LeftOut, IsPrinted;
    assert s.output + [] == s.output && s.buffered + [] == s.buffered;
  }

  lemma MapIs(o: Options, s: State, k: Kind)
    requires k.TableMap?
    ensures var r, other := ProcessMap(o, s, k), OtherDatabase(o, k.db);
            Plain(s, k, other, !other, r) && r.loads == s.loads && r.ignored == s.ignored + if other then {k.tableId} else {}
  {
    hide OtherDatabase;
  }

  lemma RowsIs(s: State, k: Kind)
    requires k.Rows?
    ensures var r, ignored := ProcessRows(s, k), k.tableId in s.ignored;
            Plain(s, k, ignored, !ignored, r) && r.loads == s.loads && r.ignored == if k.stmtEnd then {} else s.ignored
  {
  }

  lemma LoadIs(o: Options, s: State, k: Kind)
    requires IsLoad(k) && !k.ExecuteLoadQuery?
    ensures var r := ProcessLoad(o, s, k);
            var other := k.CreateFile? && OtherDatabase(o, k.db);
            && Plain(s, k, other, !other && (k.ExecLoad? ==> Holds(s, k.fileId, true)), r) && r.ignored == s.ignored
            && r.loads == if k.CreateFile? && !other then s.loads[k.fileId := true]
                          else if k.BeginLoad? then s.loads[k.fileId := false]
                          else if k.ExecLoad? && Holds(s, k.fileId, true) then s.loads - {k.fileId}
                          else s.loads
  {
    hide OtherDatabase, Holds;
  }

  lemma LoadQueryIs(o: Options, s: State, k: Kind)
    requires k.ExecuteLoadQuery?
    ensures var r, other, live := ProcessLoadQuery(o, s, k), OtherDatabase(o, k.db), Holds(s, k.fileId, false);
            Plain(s, k, other, !other && live, r) && r.ignored == s.ignored && r.loads == if live then s.loads - {k.fileId} else s.loads
  {
    hide OtherDatabase, Holds;
  }

  lemma MapStep(o: Options, past: seq<Kind>, s: State, k: Kind)
    requires k.TableMap?
    ensures InertStep(o, past, s, k, ProcessMap(o, s, k)) && ProcessMap(o, s, k).loads == s.loads
    ensures ProcessMap(o, s, k).ignored == s.ignored + if Foreign(o, k.db) then {k.tableId} else {}
  {
    hide ProcessMap, Plain;
    MapIs(o, s, k);
    PlainStep(o, past, s, k, ProcessMap(o, s, k));
  }

  lemma MapTells(o: Options, past: seq<Kind>, s: State, k: Kind)
    requires k.TableMap? && IdsTell(o, past, s)
    ensures IdsTell(o, past + [k], ProcessMap(o, s, k))
  {
    hide Ignored, Created, Begun, ProcessMap;
    MapStep(o, past, s, k);
    var r := ProcessMap(o, s, k);
    forall id: nat ensures IdTells(o, past + [k], r, id) {
      assert IdTells(o, past, s, id);
      IgnoredNext(o, past, k, id);
      CreatedNext(o, past, k, id);
      BegunNext(o, past, k, id);
    }
  }

  lemma RowsStep(o: Options, past: seq<Kind>, s: State, k: Kind)
    requires k.Rows? && IdTells(o, past, s, k.tableId)
    ensures InertStep(o, past, s, k, ProcessRows(s, k)) && ProcessRows(s, k).loads == s.loads
    ensures ProcessRows(s, k).ignored == if k.stmtEnd then {} else s.ignored
  {
    hide Ignored, Created, Begun, ProcessRows, Plain;
    RowsIs(s, k);
    PlainStep(o, past, s, k, ProcessRows(s, k));
  }

  lemma RowsTell(o: Options, past: seq<Kind>, s: State, k: Kind)
    requires k.Rows? && IdsTell(o, past, s)
    ensures IdsTell(o, past + [k], ProcessRows(s, k))
  {
    hide Ignored, Created, Begun, ProcessRows;
    assert IdTells(o, past, s, k.tableId);
    RowsStep(o, past, s, k);
    var r := ProcessRows(s, k);
    forall id: nat ensures IdTells(o, past + [k], r, id) {
      assert IdTells(o, past, s, id);
      IgnoredNext(o, past, k, id);
      CreatedNext(o, past, k, id);
      BegunNext(o, past, k, id);
    }
  }

  lemma LoadStep(o: Options, past: seq<Kind>, s: State, k: Kind)
    requires IsLoad(k) && !k.ExecuteLoadQuery? && IdTells(o, past, s, k.fileId)
    ensures InertStep(o, past, s, k, ProcessLoad(o, s, k)) && ProcessLoad(o, s, k).ignored == s.ignored
    ensures ProcessLoad(o, s, k).loads ==
            if Creates(o, k, k.fileId) then s.loads[k.fileId := true]
            else if k.BeginLoad? then s.loads[k.fileId := false]
            else if k.ExecLoad? && Holds(s, k.fileId, true) then s.loads - {k.fileId}
            else s.loads
  {
    hide Ignored, Created, Begun, ProcessLoad, Plain;
    LoadIs(o, s, k);
    PlainStep(o, past, s, k, ProcessLoad(o, s, k));
  }

  lemma LoadQueryStep(o: Options, past: seq<Kind>, s: State, k: Kind)
    requires k.ExecuteLoadQuery? && IdTells(o, past, s, k.fileId)
    ensures InertStep(o, past, s, k, ProcessLoad(o, s, k)) && ProcessLoad(o, s, k).ignored == s.ignored
    ensures ProcessLoad(o, s, k).loads == if Holds(s, k.fileId, false) then s.loads - {k.fileId} else s.loads
  {
    hide Ignored, Created, Begun, ProcessLoadQuery, Plain;
    LoadQueryIs(o, s, k);
    assert ProcessLoad(o, s, k) == ProcessLoadQuery(o, s, k);
    PlainStep(o, past, s, k, ProcessLoad(o, s, k));
  }

  lemma LoadTells(o: Options, past: seq<Kind>, s: State, k: Kind)
    requires IsLoad(k) && IdsTell(o, past, s)
    ensures IdsTell(o, past + [k], ProcessLoad(o, s, k))
  {
    hide Ignored, Created, Begun, ProcessLoad;
    assert IdTells(o, past, s, k.fileId);
    if k.ExecuteLoadQuery? { LoadQueryStep(o, past, s, k); } else { LoadStep(o, past, s, k); }
    var r := ProcessLoad(o, s, k);
    forall id: nat ensures IdTells(o, past + [k], r, id) {
      assert IdTells(o, past, s, id);
      IgnoredNext(o, past, k, id);
      CreatedNext(o, past, k, id);
      BegunNext(o, past, k, id);
    }
  }

  lemma OtherStep(o: Options, past: seq<Kind>, s: State, k: Kind)
    requires Inert(k) && !k.TableMap? && !k.Rows? && !IsLoad(k)
    ensures var r := ProcessQuiet(o, s, k); InertStep(o, past, s, k, r) && r.ignored == s.ignored && r.loads == s.loads
  {
    assert s.output + [] == s.output && s.buffered + [] == s.buffered;
  }

  lemma QuietTells(o: Options, past: seq<Kind>, s: State, k: Kind)
    requires Inert(k) && Tells(o, past, s)
    ensures Tells(o, past + [k], ProcessQuiet(o, s, k))
  {
    hide FlagsTell, IdTells, Output, Waiting, AsPrinted, InertStep, ProcessMap, ProcessRows, ProcessLoad;
    var r := ProcessQuiet(o, s, k);
    if k.TableMap? {
      MapStep(o, past, s, k);
      MapTells(o, past, s, k);
    } else if k.Rows? {
      assert IdTells(o, past, s, k.tableId);
      RowsStep(o, past, s, k);
      RowsTell(o, past, s, k);
    } else if IsLoad(k) {
      assert IdTells(o, past, s, k.fileId);
      if k.ExecuteLoadQuery? { LoadQueryStep(o, past, s, k); } else { LoadStep(o, past, s, k); }
      LoadTells(o, past, s, k);
    } else {
      OtherStep(o, past, s, k);
      IdsSame(o, past, s, k, r);
    }
    InertTells(o, past, s, k, r);
  }

  // ----- what begins and ends them --------------------------------------------------------------------------

  lemma GtidTells(o: Options, past: seq<Kind>, s: State, k: Kind)
    requires k.GtidEvent? && Tells(o, past, s)
    ensures Tells(o, past + [k], ProcessGtid(s, k))
  {
    hide Open, Awaiting, Incomplete, NoLogYet, NewLog, Output, Waiting, IdsTell, AsPrinted;
    OpenNext(past, k);
    AwaitingNext(past, k);
    IncompleteNext(o, past, k);
    NoLogNext(past, k);
    OutputNext(o, past, k);
    var r := ProcessGtid(s, k);
    var added := if s.skipped then [AddedCommit] else [];
    Assoc(s.output, added, [Printed(k)]);
    assert Waiting(past) + [] == Waiting(past);
    IdsSame(o, past, s, k, r);
  }

  lemma XidTells(o: Options, past: seq<Kind>, s: State, k: Kind)
    requires k.Xid? && Tells(o, past, s)
    ensures Tells(o, past + [k], Print(s.(inTransaction := false, skipped := false, seenGtid := false), k))
  {
    hide Open, Awaiting, Incomplete, NoLogYet, NewLog, Output, Waiting, IdsTell, AsPrinted;
    OpenNext(past, k);
    AwaitingNext(past, k);
    IncompleteNext(o, past, k);
    NoLogNext(past, k);
    OutputNext(o, past, k);
    assert [] + [Printed(k)] == [Printed(k)] && Waiting(past) + [] == Waiting(past);
    IdsSame(o, past, s, k, Print(s.(inTransaction := false, skipped := false, seenGtid := false), k));
  }

  lemma EndIs(o: Options, past: seq<Kind>, s: State)
    requires FlagsTell(o, past, s)
    ensures var r := EndBinlog(o, s);
            && r.output == s.output + LogEnd(o, past) && !r.inTransaction && !r.seenGtid && r.skipped == s.skipped
            && r.isFirstFd == s.isFirstFd && r.buffered == s.buffered && r.ignored == s.ignored && r.loads == s.loads
  {
    hide Open, Awaiting, Incomplete, NoLogYet;
  }

  /** What a format description event does. */
  lemma FormatIs(o: Options, past: seq<Kind>, s: State, k: Kind)
    requires k.FormatDescription? && FlagsTell(o, past, s)
    ensures var r := ProcessFormat(o, s, k);
            && r.output == s.output + ((if NewLog(past, k) then LogEnd(o, past) else []) + [Printed(k)])
            && r.inTransaction == (s.inTransaction && !NewLog(past, k)) && r.seenGtid == (s.seenGtid && !NewLog(past, k))
            && r.skipped == s.skipped && r.isFirstFd == (s.isFirstFd && k.relay)
            && r.buffered == s.buffered && r.ignored == s.ignored && r.loads == s.loads
  {
    hide Open, Awaiting, Incomplete, NoLogYet, NewLog, EndBinlog, LogEnd;
    NoLogNext(past, k);
    EndIs(o, past, s);
    Assoc(s.output, LogEnd(o, past), [Printed(k)]);
    assert [] + [Printed(k)] == [Printed(k)];
  }

  lemma FormatTells(o: Options, past: seq<Kind>, s: State, k: Kind)
    requires k.FormatDescription? && Tells(o, past, s)
    ensures Tells(o, past + [k], ProcessFormat(o, s, k))
  {
    hide Open, Awaiting, Incomplete, NoLogYet, NewLog, Output, Waiting, IdsTell, AsPrinted, ProcessFormat, LogEnd;
    OpenNext(past, k);
    AwaitingNext(past, k);
    IncompleteNext(o, past, k);
    NoLogNext(past, k);
    OutputNext(o, past, k);
    FormatIs(o, past, s, k);
    assert Waiting(past) + [] == Waiting(past);
    IdsSame(o, past, s, k, ProcessFormat(o, s, k));
  }

  lemma QueryTells(o: Options, past: seq<Kind>, s: State, k: Kind)
    requires k.Query? && Tells(o, past, s)
    ensures Tells(o, past + [k], ProcessQuery(o, s, k))
  {
    hide FlagsTell, IdsTell, Output, Waiting, AsPrinted, ProcessQuery;
    QueryFlagsTell(o, past, s, k);
    QueryWrites(o, past, s, k);
    IdsSame(o, past, s, k, ProcessQuery(o, s, k));
  }

  /** Every event that passes keeps the state true to the history. */
  lemma KindTells(o: Options, past: seq<Kind>, s: State, k: Kind)
    requires Tells(o, past, s)
    ensures Tells(o, past + [k], ProcessKind(o, s, k))
  {
    hide Tells, ProcessQuery, ProcessFormat, ProcessGtid, ProcessQuiet;
    if k.Query? {
      QueryTells(o, past, s, k);
    } else if k.FormatDescription? {
      FormatTells(o, past, s, k);
    } else if k.GtidEvent? {
      GtidTells(o, past, s, k);
    } else if k.Xid? {
      XidTells(o, past, s, k);
    } else {
      QuietTells(o, past, s, k);
    }
  }

  // ----- whole runs ---------------------------------------------------------------------------------------------

  ghost predicate Follows(o: Options, reached: seq<Kind>, s: State) {
    s.filtering == Rejected(o, reached) && Tells(o, Passed(o, reached), s)
  }

  lemma PassedNext(o: Options, reached: seq<Kind>, k: Kind)
    ensures Passed(o, reached + [k]) == Passed(o, reached) + if Passes(o, reached, k) then [k] else []
  {
    hide Passes;
    assert (reached + [k])[..|reached|] == reached;
  }

  lemma SameTells(o: Options, past: seq<Kind>, s: State, t: State)
    requires Tells(o, past, s)
    requires t.output == s.output && t.inTransaction == s.inTransaction && t.seenGtid == s.seenGtid && t.skipped == s.skipped
    requires t.isFirstFd == s.isFirstFd && t.buffered == s.buffered && t.ignored == s.ignored && t.loads == s.loads
    ensures Tells(o, past, t)
  {
    hide Open, Awaiting, Incomplete, NoLogYet, Output, Waiting, AsPrinted, Ignored, Created, Begun;
    forall id: nat ensures IdTells(o, past, t, id) {
      assert IdTells(o, past, s, id);
    }
  }

  lemma FilterFollows(o: Options, reached: seq<Kind>, s: State, k: Kind)
    requires Follows(o, reached, s)
    ensures Follows(o, reached + [k], FilterAndProcess(o, s, k))
  {
    hide Tells, Rejected, Passes, ProcessKind, ShallSkip;
    FilterNext(o, reached, k);
    PassedNext(o, reached, k);
    var t := s.(filtering := Rejected(o, reached + [k]));
    SameTells(o, Passed(o, reached), s, t);
    KindTells(o, Passed(o, reached), t, k);
    assert Passed(o, reached) + [] == Passed(o, reached);
  }

  lemma EventFollows(o: Options, offset: nat, start: nat, input: seq<Read>, n: nat, s: State)
    requires n < |input| && Placed(o, offset, start, input, n, s) && !s.stopped
    requires Follows(o, Reached(o, offset, start, input, n), s)
    ensures Follows(o, Reached(o, offset, start, input, n + 1), ProcessEvent(o, s, input[n].ev, input[n].stop))
  {
    hide Placed, Arrives, Tells, Rejected, Passed, TooEarly, OtherServer, TooLate, Counted, FilterAndProcess;
    var ev, stop, reached := input[n].ev, input[n].stop, Reached(o, offset, start, input, n);
    ArrivesIff(o, offset, start, input, n, s);
    var c := Counted(s, ev);
    SameTells(o, Passed(o, reached), s, c);
    SameTells(o, Passed(o, reached), c, c.(stopped := true));
    FilterFollows(o, reached, c, ev.kind);
    assert reached + [] == reached;
  }

  lemma NoMoreReached(o: Options, offset: nat, start: nat, input: seq<Read>, n: nat, s: State)
    requires n < |input| && Placed(o, offset, start, input, n, s) && s.stopped
    ensures Reached(o, offset, start, input, n + 1) == Reached(o, offset, start, input, n)
    ensures Placed(o, offset, start, input, n + 1, s)
  {
    hide Halting, Unwished, Opening;
    var i :| 0 <= i < n && Halting(o, offset, start, input, i);
    assert !Arrives(o, offset, start, input, n);
    assert Reached(o, offset, start, input, n) + [] == Reached(o, offset, start, input, n);
  }

  lemma StartTells(o: Options, offset: nat, start: nat)
    ensures Follows(o, [], Initial(offset, start))
  {
    var s := Initial(offset, start);
    forall id: nat ensures IdTells(o, [], s, id) {
      SinceNever(MapsForeign(o, id), EndsStatement());
      SinceNever(CreatesFile(o, id), TakesCreated(id));
      SinceNever(BeginsFile(id), TakesBegun(o, id));
    }
    SinceNever(NotChosen(o), Settles());
    SinceNever(Starts(), Ends());
    SinceNever(IsGtid(), Uses());
    SinceNever(Drops(o), MakesGood(o));
  }

  /** After any number of events the state follows those that were reached. */
  lemma {:induction false} RunFollows(o: Options, offset: nat, start: nat, input: seq<Read>, n: nat)
    requires n <= |input|
    ensures var s := RunReads(o, Initial(offset, start), input[..n]);
            Placed(o, offset, start, input, n, s) && Follows(o, Reached(o, offset, start, input, n), s)
  {
    hide Placed, Follows, ProcessEvent, RunReads, Arrives;
    var s0 := Initial(offset, start);
    if n == 0 {
      StartTells(o, offset, start);
      StartPlaced(o, offset, start, input);
    } else {
      var s := RunReads(o, s0, input[..n - 1]);
      assert input[..n] == input[..n - 1] + [input[n - 1]];
      RunFollows(o, offset, start, input, n - 1);
      NextRead(o, s0, input[..n - 1], input[n - 1]);
      if s.stopped {
        NoMoreReached(o, offset, start, input, n - 1, s);
      } else {
        NextPlaced(o, offset, start, input, n - 1, s);
        EventFollows(o, offset, start, input, n - 1, s);
      }
    }
  }

  lemma StartPlaced(o: Options, offset: nat, start: nat, input: seq<Read>)
    ensures RunReads(o, Initial(offset, start), input[..0]) == Initial(offset, start)
    ensures Placed(o, offset, start, input, 0, Initial(offset, start))
  {
  }

  /** The events that the program lets through, over all files. */
  ghost function Through(o: Options, offset: nat, start: nat, logs: seq<seq<Event>>, stop: Option<nat>): seq<Kind> {
    var input := AllRead(logs, stop);
    Passed(o, Reached(o, offset, start, input, |input|))
  }

  lemma LogsFollow(o: Options, offset: nat, start: nat, logs: seq<seq<Event>>, stop: Option<nat>)
    ensures Tells(o, Through(o, offset, start, logs, stop), ProcessLogs(o, Initial(offset, start), logs, stop))
  {
    hide Tells, Placed, Passed, Reached, RunReads, ProcessLogs;
    var input := AllRead(logs, stop);
    LogsAreRead(o, Initial(offset, start), logs, stop);
    RunFollows(o, offset, start, input, |input|);
    assert input[..|input|] == input;
  }

  /**
   For all options, files and stop positions the output is, event by event, what those
   call for that pass the filters: the events themselves but what belongs to another
   database, and the statements that are added.
   */
  lemma OutputIs(o: Options, offset: nat, start: nat, logs: seq<seq<Event>>, stop: Option<nat>)
    ensures var through := Through(o, offset, start, logs, stop);
            Dump(o, offset, start, logs, stop).output == Output(o, through) + Tail(o, through)
  {
    hide ProcessLogs, Through, Output, IdsTell, Open, Awaiting, Incomplete, LogEnd, EndBinlog;
    var s, through := ProcessLogs(o, Initial(offset, start), logs, stop), Through(o, offset, start, logs, stop);
    LogsFollow(o, offset, start, logs, stop);
    var t := if s.skipped then s.(output := s.output + [AddedCommit]) else s;
    EndIs(o, through, t);
    var added := if s.skipped then [AddedCommit] else [];
    assert t.output == s.output + added;
    Assoc(s.output, added, LogEnd(o, through));
  }

  // ----- the events themselves ------------------------------------------------------------------------------------

  /** The events that were printed. */
  function Events(items: seq<Item>): seq<Kind> {
    if items == [] then []
    else Events(items[..|items| - 1]) + if items[|items| - 1].Printed? then [items[|items| - 1].kind] else []
  }

  /** Everything that passed but what is to be left out, the buffered events in front of their query. */
  ghost function Wanted(o: Options, passed: seq<Kind>): seq<Kind> {
    if passed == [] then []
    else
      var past, k := passed[..|passed| - 1], passed[|passed| - 1];
      Wanted(o, past) + if IsPrinted(o, past, k) then (if k.Query? then Events(Waiting(past)) else []) + [k] else []
  }

  lemma {:induction false} EventsAppend(a: seq<Item>, b: seq<Item>)
    ensures Events(a + b) == Events(a) + Events(b)
    decreases |b|
  {
    if b == [] {
      assert a + b == a && Events(a) + [] == Events(a);
    } else {
      var front, last := b[..|b| - 1], if b[|b| - 1].Printed? then [b[|b| - 1].kind] else [];
      assert (a + b)[..|a + b| - 1] == a + front;
      EventsAppend(a, front);
      Assoc(Events(a), Events(front), last);
    }
  }

  lemma AddedHasNoEvents(o: Options, past: seq<Kind>, k: Kind)
    ensures Events(Added(o, past, k)) == [] && Events(Tail(o, past)) == []
  {
    NoEvents(Added(o, past, k));
    NoEvents(Tail(o, past));
  }

  lemma {:induction false} NoEvents(items: seq<Item>)
    requires forall i | i in items :: !i.Printed?
    ensures Events(items) == []
  {
    if items != [] {
      assert items[|items| - 1] in items;
      NoEvents(items[..|items| - 1]);
    }
  }

  lemma OneEvent(k: Kind)
    ensures Events([Printed(k)]) == [k]
  {
    assert [Printed(k)][..0] == [];
  }

  lemma WritesEvents(o: Options, past: seq<Kind>, k: Kind)
    ensures Events(Writes(o, past, k)) == if IsPrinted(o, past, k) then (if k.Query? then Events(Waiting(past)) else []) + [k] else []
  {
    hide Events, IsPrinted, Added, Waiting;
    var waiting := if k.Query? then Waiting(past) else [];
    AddedHasNoEvents(o, past, k);
    EventsAppend(Added(o, past, k), if IsPrinted(o, past, k) then waiting + [Printed(k)] else []);
    EventsAppend(waiting, [Printed(k)]);
    OneEvent(k);
    NoEvents([]);
  }

  lemma {:induction false} WantedIs(o: Options, passed: seq<Kind>)
    ensures Events(Output(o, passed)) == Wanted(o, passed)
  {
    hide Events, IsPrinted, Writes, Waiting;
    if passed == [] {
      NoEvents([]);
    } else {
      var past, k := passed[..|passed| - 1], passed[|passed| - 1];
      WantedIs(o, past);
      EventsAppend(Output(o, past), Writes(o, past, k));
      WritesEvents(o, past, k);
    }
  }

  /** The events printed are those that pass the filters and are of the database, in order, and no others. */
  lemma PrintsWanted(o: Options, offset: nat, start: nat, logs: seq<seq<Event>>, stop: Option<nat>)
    ensures Events(Dump(o, offset, start, logs, stop).output) == Wanted(o, Through(o, offset, start, logs, stop))
  {
    hide Dump, Events, Output, Tail, Through, Wanted;
    var through := Through(o, offset, start, logs, stop);
    OutputIs(o, offset, start, logs, stop);
    EventsAppend(Output(o, through), Tail(o, through));
    AddedHasNoEvents(o, through, Xid);
    WantedIs(o, through);
    assert Wanted(o, through) + [] == Wanted(o, through);
  }
}
