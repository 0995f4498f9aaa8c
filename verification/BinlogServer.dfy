/**
 A server that executes the printed file: which statements it refuses, and what it
 has open in the end.  How it reads the text of a statement is a parameter; `Usual`
 is the reading of statements as a server writes them to the log.

 Inside an XA transaction COMMIT, ROLLBACK, BEGIN and statements that commit
 implicitly are refused (sql/transaction.cc:92, sql/xa.cc:1003, sql/sql_parse.cc:2688);
 XA END, PREPARE, COMMIT and ROLLBACK need its state and its id (sql/xa.cc:262-960).
 Inside a plain transaction an implicit commit is refused if a GTID that is not
 anonymous is set (sql/rpl_gtid_execution.cc:467-474).  A refused statement outside a
 transaction gives up the GTID (sql/transaction.cc:522-540).
 */
module BinlogServer {
  import opened BinlogPrinter

  /** `Commits` is a statement that commits implicitly, as CREATE TABLE does. */
  datatype Meaning =
    | XaStart(xid: string) | XaEnd(xid: string) | XaCommit | XaRollback(xid: string)
    | Begin | End | Commits | Other

  type Parser = string -> Meaning

  /** Statements as a server writes them; which of them commit implicitly is a parameter. */
  function Usual(commits: string -> bool): Parser {
    q => if "XA START" <= q then XaStart(q[|"XA START"|..])
         else if "XA END" <= q then XaEnd(q[|"XA END"|..])
         else if "XA COMMIT" <= q then XaCommit
         else if "XA ROLLBACK" <= q then XaRollback(q[|"XA ROLLBACK"|..])
         else if q == "BEGIN" then Begin
         else if q == "COMMIT" || (CasePrefix("ROLLBACK", q) && !CasePrefix("ROLLBACK TO ", q)) then End
         else if commits(q) then Commits
         else Other
  }

  /** What is open in the session. */
  datatype Open = Nothing | Plain | Active(xid: string) | Idle(xid: string)

  /** A GTID that is set and has no statement yet. */
  datatype Pending = NoGtid | Anonymous | Numbered

  datatype Session = Session(open: Open, gtid: Pending)

  const CLOSED := Session(Nothing, NoGtid)

  predicate InXa(r: Session) {
    r.open.Active? || r.open.Idle?
  }

  /** A statement that commits by itself outside a transaction. */
  function Statement(r: Session): Session {
    if r.open.Nothing? then CLOSED else r
  }

  function EndPlain(r: Session): Session {
    if InXa(r) then r else CLOSED
  }

  function BeginPlain(r: Session): Session {
    if InXa(r) then r else r.(open := Plain)
  }

  function CommitImplicitly(r: Session): Session {
    if InXa(r) || (r.open.Plain? && r.gtid.Numbered?) then r else CLOSED
  }

  function Run(r: Session, m: Meaning): Session {
    match m
    case XaStart(xid) => if r.open.Nothing? then r.(open := Active(xid)) else r
    case XaEnd(xid) => if r.open == Active(xid) then r.(open := Idle(xid)) else Statement(r)
    case XaCommit => Statement(r)
    case XaRollback(xid) => if r.open == Idle(xid) then CLOSED else Statement(r)
    case Begin => BeginPlain(r)
    case End => EndPlain(r)
    case Commits => CommitImplicitly(r)
    case Other => Statement(r)
  }

  /** Events that are printed as statements of their own. */
  predicate IsStatement(k: Kind) {
    k.ExecLoad? || k.ExecuteLoadQuery? || (k.Rows? && k.stmtEnd)
  }

  function Execute(v: Parser, r: Session, i: Item): Session {
    match i
    case AddedCommit => EndPlain(r)
    case AddedRollback => EndPlain(r)
    case AddedBegin => BeginPlain(r)
    case SetAutomatic => r
    case Printed(k) =>
      if k.Query? then Run(r, v(k.query))
      else if k.Xid? then EndPlain(r)
      else if k.XaPrepare? then (if r.open == Idle(k.xid) then CLOSED else Statement(r))
      else if k.GtidEvent? then r.(gtid := if k.anonymous then Anonymous else Numbered)
      else if IsStatement(k) then Statement(r)
      else r
  }

  function ExecuteAll(v: Parser, r: Session, items: seq<Item>): Session {
    if items == [] then r else Execute(v, ExecuteAll(v, r, items[..|items| - 1]), items[|items| - 1])
  }

  /** The session after the whole file. */
  function Reading(v: Parser, items: seq<Item>): Session {
    ExecuteAll(v, CLOSED, items)
  }

  function After(v: Parser, s: State): Session {
    Reading(v, s.output)
  }

  lemma {:induction false} ExecuteAppend(v: Parser, r: Session, xs: seq<Item>, ys: seq<Item>)
    ensures ExecuteAll(v, r, xs + ys) == ExecuteAll(v, ExecuteAll(v, r, xs), ys)
    decreases |ys|
  {
    if ys == [] {
      assert xs + ys == xs;
    } else {
      assert (xs + ys)[..|xs + ys| - 1] == xs + ys[..|ys| - 1];
      ExecuteAppend(v, r, xs, ys[..|ys| - 1]);
    }
  }

  lemma Appended(v: Parser, s: State, items: seq<Item>)
    ensures Reading(v, s.output + items) == ExecuteAll(v, After(v, s), items)
  {
    ExecuteAppend(v, CLOSED, s.output, items);
  }

  lemma ExecuteOne(v: Parser, r: Session, i: Item)
    ensures ExecuteAll(v, r, [i]) == Execute(v, r, i)
  {
    assert [i][..0] == [];
  }

  lemma {:induction false} BufferedNeutral(v: Parser, r: Session, values: seq<string>)
    ensures ExecuteAll(v, r, AsPrinted(values)) == r
  {
    if values != [] {
      ExecuteAppend(v, r, [Printed(Buffered(values[0]))], AsPrinted(values[1..]));
      ExecuteOne(v, r, Printed(Buffered(values[0])));
      BufferedNeutral(v, r, values[1..]);
    }
  }

  lemma Prints(v: Parser, s: State, k: Kind)
    ensures After(v, BinlogPrinter.Print(s, k)) == Execute(v, After(v, s), Printed(k))
  {
    Appended(v, s, [Printed(k)]);
    ExecuteOne(v, After(v, s), Printed(k));
  }

  lemma CommitAdded(v: Parser, s: State)
    ensures Reading(v, s.output + [AddedCommit]) == EndPlain(After(v, s))
  {
    Appended(v, s, [AddedCommit]);
    ExecuteOne(v, After(v, s), AddedCommit);
  }

  lemma SameOutput(v: Parser, s: State, t: State)
    requires s.output == t.output
    ensures After(v, s) == After(v, t)
  {
  }

  /** Once inside an XA transaction, nothing that the printer adds leaves it. */
  lemma EndBinlogAfter(v: Parser, o: Options, s: State)
    ensures var r := After(v, s);
            After(v, EndBinlog(o, s)) ==
            if s.inTransaction then EndPlain(r)
            else if s.seenGtid && !o.skipGtids then EndPlain(BeginPlain(r))
            else r
  {
    var r := After(v, s);
    var first, tail := Closing(o, s), if o.skipGtids then [] else [SetAutomatic];
    Appended(v, s, first + tail);
    ExecuteAppend(v, r, first, tail);
    ExecuteOne(v, r, AddedRollback);
    ExecuteAppend(v, r, [AddedBegin], [AddedRollback]);
    ExecuteOne(v, r, AddedBegin);
    ExecuteOne(v, BeginPlain(r), AddedRollback);
    assert [AddedBegin, AddedRollback] == [AddedBegin] + [AddedRollback];
    if !o.skipGtids { ExecuteOne(v, ExecuteAll(v, r, first), SetAutomatic); }
  }
}
