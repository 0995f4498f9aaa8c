/**
 Logs as a server writes them: what the conditions of `BinlogExact` come to for them,
 and runs that show what happens where they are not met.
 */
module BinlogExamples {
  import opened Wrappers
  import opened BinlogPrinter
  import opened BinlogServer
  import opened BinlogTheorems
  import opened BinlogExact

  /** BEGIN and COMMIT are written out. */
  predicate Written(q: string) {
    (q <= "BEGIN" ==> q == "BEGIN") && (q <= "COMMIT" ==> q == "COMMIT")
  }

  lemma XaWord(q: string, word: string)
    requires word <= q && |word| > 3 && word[..3] == "XA "
    ensures !(q <= "BEGIN") && !(q <= "COMMIT") && !CasePrefix("ROLLBACK", q)
    ensures forall w: string | w <= q && |w| > 3 :: w[3] == word[3]
  {
    assert word[0] == word[..3][0] && q[0] == 'X' && "BEGIN"[0] == 'B' && "COMMIT"[0] == 'C';
    assert forall w: string | w <= q && |w| > 3 :: w[3] == q[3];
  }

  /** What the printer and the server make of such a text. */
  lemma Classes(commits: string -> bool, q: string)
    requires Written(q)
    ensures var m := Usual(commits)(q);
            && (m.XaStart? <==> "XA START" <= q) && (m.XaRollback? <==> "XA ROLLBACK" <= q) && (m.Begin? <==> q == "BEGIN")
            && (ReadsStart(q) <==> m.XaStart? || m.Begin?)
            && (EndsGroup(q) <==> m.End? || m.XaRollback?)
  {
    if "XA START" <= q { XaWord(q, "XA START"); }
    if "XA END" <= q { XaWord(q, "XA END"); }
    if "XA COMMIT" <= q { XaWord(q, "XA COMMIT"); }
    if "XA ROLLBACK" <= q { XaWord(q, "XA ROLLBACK"); }
    if CasePrefix("ROLLBACK", q) { assert Lower(q[0]) == 'r'; }
  }

  /** Everything is closed in every run exactly if there is no XA START, and no XA ROLLBACK beside a BEGIN. */
  lemma UsualCloses(o: Options, commits: string -> bool, texts: set<string>)
    requires forall q | q in texts :: Written(q)
    ensures ClosingWords(o, Usual(commits), texts) <==>
            && (forall q | q in texts :: !("XA START" <= q))
            && ("BEGIN" !in texts || forall q | q in texts :: !("XA ROLLBACK" <= q))
  {
    hide Usual, StartsGroup, EndsGroup;
    var v := Usual(commits);
    forall q | q in texts
      ensures (Seen(v, q) <==> !("XA START" <= q)) && (EndIsEnd(o, v, q) <==> !("XA ROLLBACK" <= q)) && (v(q).Begin? <==> q == "BEGIN")
    {
      Classes(commits, q);
    }
  }

  /** The flag of the transaction is exact if besides, beside a BEGIN, nothing commits implicitly and --database meets no GTID. */
  lemma UsualExact(o: Options, commits: string -> bool, texts: set<string>)
    requires forall q | q in texts :: Written(q)
    ensures ExactWords(o, Usual(commits), texts) <==>
            && (forall q | q in texts :: !("XA START" <= q))
            && ("BEGIN" !in texts ||
                (&& (o.database.Some? ==> !GtidsPass(o))
                 && forall q | q in texts :: !("XA ROLLBACK" <= q) && !Usual(commits)(q).Commits?))
  {
    hide Usual, StartsGroup, EndsGroup, GtidsPass;
    var v := Usual(commits);
    forall q | q in texts
      ensures Started(v, q) <==> !("XA START" <= q)
      ensures Ended(o, v, q) <==> !("XA ROLLBACK" <= q) && !v(q).Commits?
      ensures v(q).Begin? <==> q == "BEGIN"
    {
      Classes(commits, q);
    }
  }

  // ----- an implicit commit ---------------------------------------------------------------------------

  const CREATE := "CREATE TABLE t2 (a INT)"

  lemma CreateWords(commits: string -> bool)
    requires commits(CREATE)
    ensures Written("BEGIN") && Usual(commits)("BEGIN") == Begin
    ensures Written(CREATE) && Usual(commits)(CREATE) == Commits && !EndsGroup(CREATE)
  {
    assert CREATE[0] == 'C' && CREATE[1] == 'R' && "COMMIT"[1] == 'O' && "BEGIN"[0] == 'B' && "XA START"[0] == 'X' && "XA END"[0] == 'X';
    assert "XA COMMIT"[0] == 'X' && "XA ROLLBACK"[0] == 'X';
    assert !("BEGIN" <= "COMMIT") && !("XA START" <= "BEGIN") && !("XA END" <= "BEGIN");
  }

  /** CREATE TABLE ... SELECT in row format is logged inside BEGIN: behind the CREATE nothing is open, but the flag stays set. */
  lemma CreateUnnoticed(o: Options, commits: string -> bool)
    requires commits(CREATE) && o.stopDatetime > 0
    ensures var s := ProcessLogs(o, Initial(0, 0), [[At(o, Asked(o, "BEGIN")), At(o, Asked(o, CREATE))]], None);
            s.inTransaction && After(Usual(commits), s).open.Nothing?
  {
    hide Usual, StartsGroup, EndsGroup, ProcessEvent, ProcessLogs, Reading, Initial, StepOf;
    var v := Usual(commits);
    CreateWords(commits);
    Classes(commits, "BEGIN");
    Classes(commits, CREATE);
    Start(v);
    QueryPrinted(o, v, Initial(0, 0), "BEGIN");
    var t := StepOf(o, Initial(0, 0), Asked(o, "BEGIN"));
    QueryPrinted(o, v, t, CREATE);
    RunTwo(o, Asked(o, "BEGIN"), Asked(o, CREATE));
  }

  // ----- XA transactions --------------------------------------------------------------------------------

  /** A whole XA transaction in a GTID of its own. */
  function XaTransaction(o: Options, g: Gtid, xid: string): seq<Event> {
    [At(o, GtidEvent(g, false)), At(o, Asked(o, "XA START" + xid)), At(o, Asked(o, "XA END" + xid)), At(o, XaPrepare(xid))]
  }

  lemma StartText(commits: string -> bool, xid: string)
    ensures Usual(commits)("XA START" + xid) == XaStart(xid) && Written("XA START" + xid)
  {
    hide CasePrefix;
    var q := "XA START" + xid;
    assert "XA START" <= q && q[|"XA START"|..] == xid;
    XaWord(q, "XA START");
  }

  lemma EndText(commits: string -> bool, xid: string)
    ensures Usual(commits)("XA END" + xid) == XaEnd(xid) && Written("XA END" + xid)
  {
    hide CasePrefix;
    var q := "XA END" + xid;
    assert "XA END" <= q && q[|"XA END"|..] == xid;
    XaWord(q, "XA END");
    assert "XA START"[3] == 'S' && "XA END"[3] == 'E';
  }

  lemma RollbackText(commits: string -> bool, xid: string)
    ensures Usual(commits)("XA ROLLBACK" + xid) == XaRollback(xid) && Written("XA ROLLBACK" + xid)
  {
    hide CasePrefix;
    var q := "XA ROLLBACK" + xid;
    assert "XA ROLLBACK" <= q && q[|"XA ROLLBACK"|..] == xid;
    XaWord(q, "XA ROLLBACK");
    assert "XA START"[3] == 'S' && "XA END"[3] == 'E' && "XA COMMIT"[3] == 'C' && "XA ROLLBACK"[3] == 'R';
  }

  /** Behind its prepare event nothing is open, but the flag stays set, also without --database. */
  lemma PreparedUnnoticed(o: Options, commits: string -> bool, g: Gtid, xid: string)
    requires o.stopDatetime > 0 && !o.skipGtids && !Unwanted(o, g)
    ensures var s := ProcessLog(o, Initial(0, 0), XaTransaction(o, g, xid), None);
            After(Usual(commits), s) == CLOSED && s.inTransaction
  {
    hide ProcessEvent, Reading, Unwanted, Usual, StartsGroup, EndsGroup;
    var log, i, v := XaTransaction(o, g, xid), Initial(0, 0), Usual(commits);
    StartText(commits, xid);
    EndText(commits, xid);
    Classes(commits, "XA START" + xid);
    Classes(commits, "XA END" + xid);
    Start(v);
    GtidPrinted(o, v, i, g);
    var s1 := ProcessEvent(o, i, log[0], None);
    QueryPrinted(o, v, s1, "XA START" + xid);
    var s2 := ProcessEvent(o, s1, log[1], None);
    QueryPrinted(o, v, s2, "XA END" + xid);
    var s3 := ProcessEvent(o, s2, log[2], None);
    Reaching(o, s3, XaPrepare(xid));
    var c := s3.(recCount := s3.recCount + 1);
    Prints(v, c, XaPrepare(xid));
    SameOutput(v, s3, c);
    var s4 := ProcessEvent(o, s3, log[3], None);
    assert log[1..][1..] == log[2..] && log[2..][1..] == log[3..] && log[3..][1..] == [];
    assert ProcessLog(o, s3, log[3..], None) == s4;
    assert ProcessLog(o, s2, log[2..], None) == s4;
    assert ProcessLog(o, s1, log[1..], None) == s4;
  }

  /** XA ROLLBACK inside a plain transaction is refused; the transaction is left open. */
  lemma RefusedRollback(o: Options, commits: string -> bool, xid: string)
    requires o.stopDatetime > 0
    ensures After(Usual(commits), Dump(o, 0, 0, [[At(o, Asked(o, "BEGIN")), At(o, Asked(o, "XA ROLLBACK" + xid))]], None)).open == Plain
  {
    hide Usual, StartsGroup, EndsGroup, Reading, Dump, ProcessLogs;
    RollbackText(commits, xid);
    BeginWord(commits);
    Classes(commits, "BEGIN");
    Classes(commits, "XA ROLLBACK" + xid);
    RefusedEnd(o, Usual(commits), "BEGIN", "XA ROLLBACK" + xid);
  }

  lemma BeginWord(commits: string -> bool)
    ensures Written("BEGIN") && Usual(commits)("BEGIN") == Begin
  {
    assert "BEGIN"[0] == 'B' && "COMMIT"[0] == 'C' && "XA START"[0] == 'X' && "XA END"[0] == 'X' && "XA COMMIT"[0] == 'X' && "XA ROLLBACK"[0] == 'X';
  }

  // ----- how a transaction is hidden in such a log ---------------------------------------------------------

  predicate AllWritten(items: seq<Item>) {
    forall i | i in items && i.Printed? && i.kind.Query? :: Written(i.kind.query)
  }

  lemma EndLeavesPlain(v: Parser, r: Session, i: Item)
    requires r.open.Plain? && LooksEnd(i) && (i.Printed? && i.kind.Query? ==> v(i.kind.query).End?)
    ensures Execute(v, r, i) == CLOSED
  {
  }

  lemma BecomesPlain(v: Parser, r: Session, i: Item)
    requires !r.open.Plain? && Execute(v, r, i).open.Plain?
    ensures i.AddedBegin? || (i.Printed? && i.kind.Query? && v(i.kind.query).Begin?)
  {
  }

  /** In such a log it is an XA ROLLBACK inside the transaction that hides it, and nothing else. */
  lemma HiddenByRollback(commits: string -> bool, items: seq<Item>, j: nat)
    requires AllWritten(items) && HidesAt(Usual(commits), items, j)
    ensures items[j].Printed? && items[j].kind.Query? && "XA ROLLBACK" <= items[j].kind.query
    ensures Reading(Usual(commits), items[..j]).open.Plain?
  {
    hide Usual, Reading, LooksOpen, EndsGroup, StartsGroup;
    var v, i := Usual(commits), items[j];
    assert i in items && items[..j + 1] == items[..j] + [i];
    PlainFrom(v, items[..j], i);
    LooksOne(items[..j], i);
    if i.Printed? && i.kind.Query? { Classes(commits, i.kind.query); }
    if Refuses(v, items, j) {
      if !(i.Printed? && i.kind.Query? && v(i.kind.query).XaRollback?) { EndLeavesPlain(v, Reading(v, items[..j]), i); }
    } else {
      BecomesPlain(v, Reading(v, items[..j]), i);
    }
  }
}
