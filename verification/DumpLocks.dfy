/**
 What --lock-tables does: each database is shown as it was at one moment, and without
 a lock or a snapshot it need not be.
 */
module DumpLocks {
  import opened Wrappers
  import opened DumpProtocol
  import opened DumpTheorems

  // ----- what is read stays as it was read -------------------------------------------------------------

  /** More was read and committed, behind what was there. */
  ghost predicate Extends(s: Server, t: Server) {
    s.log <= t.log && s.seen <= t.seen
  }

  lemma StepExtends(env: Others, s: Server, c: Command)
    ensures Extends(s, Step(env, s, c))
  {
    hide Interfere;
    InterfereKeeps(s, env(s.clock));
  }

  lemma {:induction false} RunExtends(env: Others, s: Server, commands: seq<Command>)
    ensures Extends(s, Run(env, s, commands))
    decreases |commands|
  {
    hide Step;
    if commands != [] {
      StepExtends(env, s, commands[0]);
      RunExtends(env, Step(env, s, commands[0]), commands[1..]);
    }
  }

  /** The reads from here to there are of the database and show these commits to it. */
  ghost predicate AllShow(s: Server, from: nat, to: nat, db: string, commits: seq<Commit>) {
    && from <= to <= |s.seen|
    && forall i | from <= i < to :: s.seen[i].point <= |s.log| && Shown(s.log[..s.seen[i].point], db) == commits
  }

  lemma StillShow(s: Server, t: Server, from: nat, to: nat, db: string, commits: seq<Commit>)
    requires AllShow(s, from, to, db, commits) && Extends(s, t)
    ensures AllShow(t, from, to, db, commits)
  {
    forall i | from <= i < to ensures t.seen[i].point <= |t.log| && Shown(t.log[..t.seen[i].point], db) == commits {
      assert t.seen[i] == s.seen[i];
      assert t.log[..s.seen[i].point] == s.log[..s.seen[i].point];
    }
  }

  // ----- a locked database -----------------------------------------------------------------------------

  /** Nobody else writes to the database, and a read is of the present. */
  ghost predicate Locked(s: Server, db: string) {
    s.lockedDb == Some(db) && s.snapshot.None?
  }

  lemma {:induction false} InterfereLocked(s: Server, commits: seq<Commit>, db: string)
    requires s.lockedDb == Some(db)
    ensures Shown(Interfere(s, commits).log, db) == Shown(s.log, db)
    decreases |commits|
  {
    hide Shown;
    if commits != [] {
      var c := commits[0];
      ShownOne(s.log, c, db);
      InterfereLocked(if Allowed(s, c) then s.(log := s.log + [c]) else s, commits[1..], db);
    }
  }

  lemma LockedStep(env: Others, s: Server, db: string, c: Command)
    requires Locked(s, db) && (c.FlushLogs? || (c.ReadTable? && c.db == db))
    ensures var t := Step(env, s, c);
            && Locked(t, db) && Shown(t.log, db) == Shown(s.log, db)
            && t.seen == s.seen + if c.ReadTable? then [Read(db, c.table, |t.log|)] else []
  {
    hide Interfere, Shown;
    InterfereKeeps(s, env(s.clock));
    InterfereLocked(s, env(s.clock), db);
  }

  lemma {:induction false} LockedReads(env: Others, s: Server, o: Options, db: string, tables: seq<string>)
    requires Locked(s, db) && !o.singleTransaction
    ensures var t := Run(env, s, Tables(o, db, tables));
            Locked(t, db) && |t.seen| == |s.seen| + |tables| && AllShow(t, |s.seen|, |t.seen|, db, Shown(s.log, db))
    decreases |tables|
  {
    hide Step, Shown;
    if tables != [] {
      var c, rest := ReadTable(db, tables[0]), Tables(o, db, tables[1..]);
      assert Tables(o, db, tables) == [c] + rest;
      var u := Step(env, s, c);
      LockedStep(env, s, db, c);
      LockedReads(env, u, o, db, tables[1..]);
      var t := Run(env, u, rest);
      assert ([c] + rest)[1..] == rest;
      assert u.log[..|u.log|] == u.log;
      assert AllShow(u, |s.seen|, |u.seen|, db, Shown(s.log, db));
      RunExtends(env, u, rest);
      StillShow(u, t, |s.seen|, |u.seen|, db, Shown(s.log, db));
    }
  }

  /** All of these reads show the same commits to the database. */
  ghost predicate OneView(s: Server, from: nat, to: nat, db: string) {
    exists commits :: AllShow(s, from, to, db, commits)
  }

  lemma LockStep(env: Others, s: Server, db: string)
    ensures var t := Step(env, s, LockTables(db)); Locked(t, db) && t.seen == s.seen
  {
    hide Interfere;
    InterfereKeeps(s, env(s.clock));
  }

  lemma NothingSeen(env: Others, s: Server, o: Options, gtid: bool, d: Database)
    requires d.tables == []
    ensures var t := Run(env, s, OneDatabase(o, gtid, d)); |t.seen| == |s.seen|
  {
    hide OneDatabase, Run, Reading;
    RunReads(env, s, OneDatabase(o, gtid, d));
    OneDatabaseReading(o, gtid, d);
  }

  /** The reads of a database whose tables are locked first. */
  lemma DatabaseHeld(env: Others, s: Server, o: Options, gtid: bool, d: Database)
    requires o.lockTables && !o.singleTransaction
    ensures var t := Run(env, s, OneDatabase(o, gtid, d));
            |t.seen| == |s.seen| + |d.tables| && OneView(t, |s.seen|, |t.seen|, d.name)
  {
    hide Step, Shown, Run, FlushesPerDatabase, Tables;
    if d.tables == [] {
      NothingSeen(env, s, o, gtid, d);
      assert AllShow(Run(env, s, OneDatabase(o, gtid, d)), |s.seen|, |s.seen|, d.name, []);
    } else {
      var f, lock, body := FlushesPerDatabase(o, gtid), LockTables(d.name), Tables(o, d.name, d.tables);
      var s1 := Step(env, s, lock);
      var s2 := StepWhen(env, s1, f, FlushLogs);
      var s3 := Run(env, s2, body);
      var t := Step(env, s3, UnlockTables);
      HeldCommands(env, s, o, gtid, d);
      LockStep(env, s, d.name);
      if f { LockedStep(env, s1, d.name, FlushLogs); }
      LockedReads(env, s2, o, d.name, d.tables);
      StepExtends(env, s3, UnlockTables);
      StillShow(s3, t, |s.seen|, |s3.seen|, d.name, Shown(s2.log, d.name));
      StepReads(env, s3, UnlockTables);
      assert |Names(t.seen)| == |Names(s3.seen)|;
    }
  }

  lemma HeldCommands(env: Others, s: Server, o: Options, gtid: bool, d: Database)
    requires o.lockTables && !o.singleTransaction && d.tables != []
    ensures var s2 := StepWhen(env, Step(env, s, LockTables(d.name)), FlushesPerDatabase(o, gtid), FlushLogs);
            Run(env, s, OneDatabase(o, gtid, d)) == Step(env, Run(env, s2, Tables(o, d.name, d.tables)), UnlockTables)
  {
    hide Step, Run, FlushesPerDatabase, Tables;
    var f, body := FlushesPerDatabase(o, gtid), Tables(o, d.name, d.tables);
    var c1 := When(true, LockTables(d.name));
    var c2 := c1 + When(f, FlushLogs);
    var c3 := c2 + body;
    assert OneDatabase(o, gtid, d) == c3 + When(true, UnlockTables) by {
      assert c2 + [] == c2 && c3 + [] == c3;
    }
    assert [] + c1 == c1;
    NoCommands(env, s);
    RunWhen(env, s, [], true, LockTables(d.name));
    RunWhen(env, s, c1, f, FlushLogs);
    RunAppend(env, s, c2, body);
    RunWhen(env, s, c3, true, UnlockTables);
  }

  lemma NoCommands(env: Others, s: Server)
    ensures Run(env, s, []) == s
  {
  }

  // ----- each database of a dump -------------------------------------------------------------------------

  /** How many tables are read before the database. */
  function Before(dbs: seq<Database>, i: nat): nat
    requires i <= |dbs|
  {
    if i == 0 then 0 else |dbs[0].tables| + Before(dbs[1..], i - 1)
  }

  lemma {:induction false} EachHeld(env: Others, s: Server, o: Options, gtid: bool, dbs: seq<Database>, i: nat)
    requires o.lockTables && !o.singleTransaction && i < |dbs|
    ensures var t, from := Run(env, s, Databases(o, gtid, dbs)), |s.seen| + Before(dbs, i);
            OneView(t, from, from + |dbs[i].tables|, dbs[i].name)
    decreases |dbs|
  {
    hide Run, OneDatabase, AllShow;
    var one, more := OneDatabase(o, gtid, dbs[0]), Databases(o, gtid, dbs[1..]);
    var u := Run(env, s, one);
    RunAppend(env, s, one, more);
    DatabaseHeld(env, s, o, gtid, dbs[0]);
    if i == 0 {
      RunExtends(env, u, more);
      ViewKept(u, Run(env, u, more), |s.seen|, |u.seen|, dbs[0].name);
    } else {
      EachHeld(env, u, o, gtid, dbs[1..], i - 1);
    }
  }

  lemma ViewKept(s: Server, t: Server, from: nat, to: nat, db: string)
    requires OneView(s, from, to, db) && Extends(s, t)
    ensures OneView(t, from, to, db)
  {
    hide AllShow;
    var commits :| AllShow(s, from, to, db, commits);
    StillShow(s, t, from, to, db, commits);
  }

  /** The database is shown as it was at one moment. */
  ghost predicate DatabaseAtOnce(s: Server, dbs: seq<Database>, i: nat)
    requires i < |dbs|
  {
    OneView(s, Before(dbs, i), Before(dbs, i) + |dbs[i].tables|, dbs[i].name)
  }

  lemma LockedAtOnce(env: Others, log: seq<Commit>, slaveRunning: bool, o: Options, gtid: bool, dbs: seq<Database>, i: nat)
    requires Normalise(o) == Some(o) && o.lockTables && i < |dbs|
    ensures DatabaseAtOnce(Dump(env, log, slaveRunning, o, gtid, dbs), dbs, i)
  {
    hide Run, Databases, Opening, Coordinates, Closing, OneView, Before;
    NormalisedModes(o);
    UnprotectedParts(o, gtid);
    var s, all, last := Start(log, slaveRunning), Databases(o, gtid, dbs), Closing(o, gtid);
    assert [] + ([] + (all + last)) == all + last;
    RunAppend(env, s, all, last);
    EachHeld(env, s, o, gtid, dbs, i);
    RunExtends(env, Run(env, s, all), last);
    ViewKept(Run(env, s, all), Run(env, s, all + last), Before(dbs, i), Before(dbs, i) + |dbs[i].tables|, dbs[i].name);
  }

  lemma {:induction false} BeforeFits(dbs: seq<Database>, i: nat)
    requires i < |dbs|
    ensures Before(dbs, i) + |dbs[i].tables| <= |AllTables(dbs)|
  {
    if i > 0 { BeforeFits(dbs[1..], i - 1); }
  }

  lemma ConsistentAtOnce(env: Others, log: seq<Commit>, slaveRunning: bool, raw: Options, gtid: bool, dbs: seq<Database>, i: nat)
    requires Normalise(raw).Some? && Consistent(Normalise(raw).value) && i < |dbs|
    ensures DatabaseAtOnce(Dump(env, log, slaveRunning, Normalise(raw).value, gtid, dbs), dbs, i)
  {
    hide Dump, Shown, AllTables, Before;
    var s := Dump(env, log, slaveRunning, Normalise(raw).value, gtid, dbs);
    OnePoint(env, log, slaveRunning, raw, gtid, dbs);
    var p: nat :| AllAt(s, p);
    DumpReadsAllTables(env, log, slaveRunning, Normalise(raw).value, gtid, dbs);
    assert |s.seen| == |Names(s.seen)|;
    BeforeFits(dbs, i);
    forall j | 0 <= j < |s.seen| ensures s.seen[j].point == p { assert s.seen[j] in s.seen; }
    assert AllShow(s, Before(dbs, i), Before(dbs, i) + |dbs[i].tables|, dbs[i].name, Shown(s.log[..p], dbs[i].name));
  }

  // ----- without any lock ------------------------------------------------------------------------------------

  function TwoTables(): seq<Database> { [Database("a", ["t", "u"])] }

  lemma TwoReads(o: Options)
    requires !o.singleTransaction
    ensures Tables(o, "a", ["t", "u"]) == [ReadTable("a", "t"), ReadTable("a", "u")]
  {
    OneTable(o, "a", "u");
    assert ["t", "u"][1..] == ["u"];
    assert [ReadTable("a", "t")] + [] + [ReadTable("a", "u")] == [ReadTable("a", "t"), ReadTable("a", "u")];
  }

  lemma UnlockedCommands(o: Options, gtid: bool)
    requires Normalise(o) == Some(o) && !Consistent(o) && !o.lockTables
    ensures Script(o, gtid, TwoTables()) ==
            When(FlushesPerDatabase(o, gtid), FlushLogs) + [ReadTable("a", "t")] + [ReadTable("a", "u")] + Closing(o, gtid)
  {
    hide FlushesPerDatabase, Opening, Coordinates, Closing, Tables;
    UnprotectedParts(o, gtid);
    TwoReads(o);
    var flush, last := When(FlushesPerDatabase(o, gtid), FlushLogs), Closing(o, gtid);
    var one := OneDatabase(o, gtid, TwoTables()[0]);
    assert one == flush + [ReadTable("a", "t")] + [ReadTable("a", "u")] by {
      assert [] + flush == flush && flush + [] == flush;
      assert [ReadTable("a", "t"), ReadTable("a", "u")] == [ReadTable("a", "t")] + [ReadTable("a", "u")];
    }
    assert TwoTables()[1..] == [];
    assert Databases(o, gtid, TwoTables()) == one + [] == one;
    assert [] + ([] + (one + last)) == one + last;
  }

  /** The two reads of the database, with a commit to it between them. */
  lemma Apart(o: Options, gtid: bool)
    requires Normalise(o) == Some(o) && !Consistent(o) && !o.lockTables
    ensures var s := Dump(Busy(), [], false, o, gtid, TwoTables()); !DatabaseAtOnce(s, TwoTables(), 0)
  {
    hide Run, Step, Closing, FlushesPerDatabase, Shown, StepWhen;
    var s0, f := Start([], false), FlushesPerDatabase(o, gtid);
    var c1 := When(f, FlushLogs);
    var t, u := ReadTable("a", "t"), ReadTable("a", "u");
    UnlockedCommands(o, gtid);
    assert [] + c1 == c1 && When(true, t) == [t] && When(true, u) == [u];
    NoCommands(Busy(), s0);
    RunWhen(Busy(), s0, [], f, FlushLogs);
    var s1 := StepWhen(Busy(), s0, f, FlushLogs);
    RunWhen(Busy(), s0, c1, true, t);
    Always(s1, t);
    var s2 := Step(Busy(), s1, t);
    RunWhen(Busy(), s0, c1 + [t], true, u);
    Always(s2, u);
    var s3 := Step(Busy(), s2, u);
    RunAppend(Busy(), s0, c1 + [t] + [u], Closing(o, gtid));
    BusyWhen(s0, f, FlushLogs, None);
    BusyRead(s1, "a", "t", None);
    BusyRead(s2, "a", "u", None);
    RunExtends(Busy(), s3, Closing(o, gtid));
    TwoViews(s2, s3, Run(Busy(), s3, Closing(o, gtid)));
  }

  lemma Always(s: Server, c: Command)
    ensures StepWhen(Busy(), s, true, c) == Step(Busy(), s, c)
  {
  }

  lemma TwoViews(s2: Server, s3: Server, s: Server)
    requires |s2.seen| == 1 && s2.seen[0].point == |s2.log|
    requires s3.log == s2.log + [Commit("a", false), Commit("b", false)]
    requires s3.seen == s2.seen + [Read("a", "u", |s3.log|)] && Extends(s3, s)
    ensures !OneView(s, 0, 2, "a")
  {
    hide Shown;
    assert s.seen[0] == s3.seen[0] && s.seen[1] == s3.seen[1];
    assert s.log[|s2.log|] == s3.log[|s2.log|];
    ShownGrows(s.log, |s2.log|, |s3.log|, "a");
  }

  ghost predicate AlwaysAtOnce(o: Options, gtid: bool) {
    forall env: Others, log: seq<Commit>, slaveRunning: bool, dbs: seq<Database>, i: nat | i < |dbs| ::
      DatabaseAtOnce(Dump(env, log, slaveRunning, o, gtid, dbs), dbs, i)
  }

  /** Every database of every dump is shown as of one moment if and only if something is locked or a snapshot is used. */
  lemma AtOnceIff(raw: Options, gtid: bool)
    requires Normalise(raw).Some?
    ensures var o := Normalise(raw).value; AlwaysAtOnce(o, gtid) <==> Consistent(o) || o.lockTables
  {
    hide Dump, DatabaseAtOnce;
    var o := Normalise(raw).value;
    assert Normalise(o) == Some(o);
    if Consistent(o) || o.lockTables {
      forall env: Others, log: seq<Commit>, slaveRunning: bool, dbs: seq<Database>, i: nat | i < |dbs|
        ensures DatabaseAtOnce(Dump(env, log, slaveRunning, o, gtid, dbs), dbs, i)
      {
        if Consistent(o) {
          ConsistentAtOnce(env, log, slaveRunning, raw, gtid, dbs, i);
        } else {
          LockedAtOnce(env, log, slaveRunning, o, gtid, dbs, i);
        }
      }
    } else {
      Apart(o, gtid);
    }
  }
}
