/**
 `Load_log_processor` of `mysqlbinlog`: the temporary files that hold the data of
 LOAD DATA statements while the events of several of them arrive interleaved.
 */
module LoadFiles {
  import opened Wrappers

  /** A zeroed record has no file name; `create` tells a Create_file from a Begin_load_query record. */
  datatype Record = Record(fname: Option<string>, create: bool)

  datatype Op =
    | Begin(id: nat, block: string)
    | Create(base: string, id: nat, block: string)
    | Append(id: nat, block: string)
    | ExecuteQuery(id: nat, otherDatabase: bool)
    | ExecLoad(id: nat)

  /** A printed LOAD DATA statement: the name as printed, and the file that was grabbed for it. */
  datatype Load = Load(name: string, file: string)

  datatype Loader = Loader(
    names: map<nat, Record>,
    disk: map<string, string>,
    loads: seq<Load>,
    failed: bool)

  const MAX_VERSIONS := 1000
  const LOAD_BASE := "SQL_LOAD_MB"

  function Hex(n: nat): string {
    (if n < 16 then "" else Hex(n / 16)) + ["0123456789abcdef"[n % 16]]
  }

  function NameOf(dir: string, base: string, id: nat, version: nat): string {
    dir + base + "-" + Hex(id) + "-" + Hex(version)
  }

  /** `create_unique_file`: the first version, from `v` on, that no file has. */
  function FreeVersion(disk: map<string, string>, dir: string, base: string, id: nat, v: nat): (r: Option<nat>)
    ensures r.Some? ==> v <= r.value < 1000 && NameOf(dir, base, id, r.value) !in disk
    ensures forall u | v <= u < (if r.Some? then r.value else 1000) :: NameOf(dir, base, id, u) in disk
    decreases MAX_VERSIONS - v
  {
    if v >= MAX_VERSIONS then None
    else if NameOf(dir, base, id, v) !in disk then Some(v)
    else FreeVersion(disk, dir, base, id, v + 1)
  }

  /** `process_first_event` */
  function First(dir: string, s: Loader, base: string, id: nat, block: string, create: bool): Loader {
    match FreeVersion(s.disk, dir, base, id, 0)
    case None => s.(failed := true)
    case Some(v) =>
      var f := NameOf(dir, base, id, v);
      s.(names := s.names[id := Record(Some(f), create)], disk := s.disk[f := block])
  }

  /** The file of a live record. */
  function FileOf(s: Loader, id: nat): Option<string> {
    if id in s.names then s.names[id].fname else None
  }

  function AppendTo(s: Loader, id: nat, block: string): Loader {
    match FileOf(s, id)
    case Some(f) => if f in s.disk then s.(disk := s.disk[f := s.disk[f] + block]) else s.(failed := true)
    case None => s
  }

  /** `grab_fname` and `grab_event`: only a record of the wanted kind is taken. */
  function Grab(s: Loader, id: nat, create: bool): (Loader, Option<string>) {
    if id in s.names && s.names[id].create == create
    then (s.(names := s.names[id := Record(None, false)]), s.names[id].fname)
    else (s, None)
  }

  function Slashed(name: string): string {
    seq(|name|, i requires 0 <= i < |name| => if name[i] == '\\' then '/' else name[i])
  }

  /** The same name with slashes for its backslashes. */
  predicate AreSlashed(r: string, name: string) {
    |r| == |name| && forall k | 0 <= k < |name| :: r[k] == if name[k] == '\\' then '/' else name[k]
  }

  function Print(s: Loader, f: Option<string>): Loader {
    match f
    case Some(file) => s.(loads := s.loads + [Load(Slashed(file), file)])
    case None => s
  }

  function Apply(dir: string, s: Loader, op: Op): Loader {
    match op
    case Begin(id, block) => First(dir, s, LOAD_BASE, id, block, false)
    case Create(base, id, block) => First(dir, s, base, id, block, true)
    case Append(id, block) => AppendTo(s, id, block)
    case ExecuteQuery(id, otherDatabase) =>
      var (t, f) := Grab(s, id, false);
      Print(t, if otherDatabase then None else f)
    case ExecLoad(id) =>
      var (t, f) := Grab(s, id, true);
      Print(t, f)
  }

  function ApplyAll(dir: string, s: Loader, ops: seq<Op>): Loader {
    if ops == [] then s
    else
      var t := ApplyAll(dir, s, ops[..|ops| - 1]);
      if t.failed then t else Apply(dir, t, ops[|ops| - 1])
  }

  function Initial(disk: map<string, string>): Loader {
    Loader(map[], disk, [], false)
  }

  // ----- what the events mean ------------------------------------------------------------

  /** `base` is the part of the file's name that the event gives. */
  datatype Data = Data(create: bool, base: string, content: string)

  /**
   The data collected for an id, read off the events alone: the block of the
   latest begin event followed by every later append block, until it is grabbed.
   */
  function Live(past: seq<Op>, id: nat): Option<Data> {
    if past == [] then None
    else
      var op := past[|past| - 1];
      var before := Live(past[..|past| - 1], id);
      if op.id != id then before
      else match op
        case Begin(_, block) => Some(Data(false, LOAD_BASE, block))
        case Create(base, _, block) => Some(Data(true, base, block))
        case Append(_, block) =>
          if before.Some? then Some(before.value.(content := before.value.content + block)) else None
        case ExecuteQuery(_, _) => if before.Some? && before.value.create then before else None
        case ExecLoad(_) => if before.Some? && !before.value.create then before else None
  }

  /** The data that the printed LOAD DATA statements must load, in order. */
  function Expected(ops: seq<Op>): seq<Data> {
    if ops == [] then []
    else
      var past := ops[..|ops| - 1];
      var op := ops[|ops| - 1];
      var live := Live(past, op.id);
      Expected(past) +
      if live.Some? && ((op.ExecuteQuery? && !op.otherDatabase && !live.value.create)
                        || (op.ExecLoad? && live.value.create))
      then [live.value] else []
  }

  // ----- the invariant ---------------------------------------------------------------------

  /** The file has a backslash in its name exactly if the directory or the base has one. */
  predicate Named(dir: string, base: string, file: string) {
    '\\' in file <==> '\\' in dir || '\\' in base
  }

  /** The file holds the data under a name made from its base. */
  ghost predicate Stores(dir: string, disk: map<string, string>, file: string, d: Data) {
    file in disk && disk[file] == d.content && Named(dir, d.base, file)
  }

  /** Every live record has a file of its own, which holds exactly the data of its id. */
  ghost predicate Holds(dir: string, s: Loader, past: seq<Op>) {
    && (forall id: nat :: FileOf(s, id).Some? <==> Live(past, id).Some?)
    && (forall id | id in s.names && s.names[id].fname.Some? ::
          Live(past, id).value.create == s.names[id].create && Stores(dir, s.disk, s.names[id].fname.value, Live(past, id).value))
    && (forall id, id' | id in s.names && id' in s.names && id != id' && s.names[id].fname.Some? ::
          s.names[id].fname != s.names[id'].fname)
  }

  /** Every printed statement finds its data, and no live record can still change it. */
  ghost predicate Loaded(dir: string, s: Loader, expected: seq<Data>) {
    && |s.loads| == |expected|
    && (forall i | 0 <= i < |s.loads| ::
          Stores(dir, s.disk, s.loads[i].file, expected[i]) && s.loads[i].name == Slashed(s.loads[i].file))
    && (forall i, id | 0 <= i < |s.loads| && id in s.names :: s.names[id].fname != Some(s.loads[i].file))
  }

  lemma {:induction false} HexPlain(n: nat)
    ensures '\\' !in Hex(n)
  {
    if n >= 16 { HexPlain(n / 16); }
  }

  lemma NameIsNamed(dir: string, base: string, id: nat, v: nat)
    ensures Named(dir, base, NameOf(dir, base, id, v))
  {
    HexPlain(id);
    HexPlain(v);
  }

  function BaseOf(op: Op): string
    requires op.Begin? || op.Create?
  {
    if op.Begin? then LOAD_BASE else op.base
  }

  /** A fresh file under an id, with the data of the event that began it. */
  lemma Entered(dir: string, s: Loader, past: seq<Op>, op: Op, f: string)
    requires (op.Begin? || op.Create?) && Holds(dir, s, past) && f !in s.disk && Named(dir, BaseOf(op), f)
    ensures Holds(dir, s.(names := s.names[op.id := Record(Some(f), op.Create?)], disk := s.disk[f := op.block]), past + [op])
  {
    hide Named;
    var all, t := past + [op], s.(names := s.names[op.id := Record(Some(f), op.Create?)], disk := s.disk[f := op.block]);
    assert all[..|past|] == past;
    forall id: nat ensures FileOf(t, id).Some? <==> Live(all, id).Some? {
      assert id != op.id ==> Live(all, id) == Live(past, id) && FileOf(t, id) == FileOf(s, id);
    }
    forall id | id in t.names && t.names[id].fname.Some?
      ensures Live(all, id).value.create == t.names[id].create && Stores(dir, t.disk, t.names[id].fname.value, Live(all, id).value)
    {
      assert id != op.id ==> Live(all, id) == Live(past, id) && s.names[id].fname.value in s.disk;
    }
    assert forall id, id' | id in t.names && id' in t.names && id != id' && t.names[id].fname.Some? ::
        t.names[id].fname != t.names[id'].fname;
  }

  lemma FirstHolds(dir: string, s: Loader, past: seq<Op>, op: Op)
    requires op.Begin? || op.Create?
    requires Holds(dir, s, past) && !s.failed && !Apply(dir, s, op).failed
    ensures Holds(dir, Apply(dir, s, op), past + [op])
  {
    hide Named, NameOf, Holds;
    var v := FreeVersion(s.disk, dir, BaseOf(op), op.id, 0).value;
    NameIsNamed(dir, BaseOf(op), op.id, v);
    Entered(dir, s, past, op, NameOf(dir, BaseOf(op), op.id, v));
    assert Apply(dir, s, op) == First(dir, s, BaseOf(op), op.id, op.block, op.Create?);
  }

  lemma FirstLoaded(dir: string, s: Loader, past: seq<Op>, op: Op)
    requires op.Begin? || op.Create?
    requires Loaded(dir, s, Expected(past)) && !s.failed && !Apply(dir, s, op).failed
    ensures Loaded(dir, Apply(dir, s, op), Expected(past + [op]))
  {
    assert (past + [op])[..|past|] == past;
    assert Expected(past) + [] == Expected(past);
  }

  lemma AppendHolds(dir: string, s: Loader, past: seq<Op>, op: Op)
    requires op.Append?
    requires Holds(dir, s, past) && Loaded(dir, s, Expected(past)) && !s.failed
    ensures !Apply(dir, s, op).failed
    ensures Holds(dir, Apply(dir, s, op), past + [op]) && Loaded(dir, Apply(dir, s, op), Expected(past + [op]))
  {
    assert (past + [op])[..|past|] == past;
    assert Expected(past) + [] == Expected(past);
  }

  lemma GrabHolds(dir: string, s: Loader, past: seq<Op>, op: Op)
    requires op.ExecuteQuery? || op.ExecLoad?
    requires Holds(dir, s, past) && !s.failed
    ensures !Apply(dir, s, op).failed && Holds(dir, Apply(dir, s, op), past + [op])
  {
    assert (past + [op])[..|past|] == past;
  }

  lemma GrabLoaded(dir: string, s: Loader, past: seq<Op>, op: Op)
    requires op.ExecuteQuery? || op.ExecLoad?
    requires Holds(dir, s, past) && Loaded(dir, s, Expected(past)) && !s.failed
    ensures Loaded(dir, Apply(dir, s, op), Expected(past + [op]))
  {
    assert (past + [op])[..|past|] == past;
    assert Expected(past) + [] == Expected(past);
  }

  lemma {:induction false} RunHolds(dir: string, disk: map<string, string>, ops: seq<Op>)
    requires !ApplyAll(dir, Initial(disk), ops).failed
    ensures var s := ApplyAll(dir, Initial(disk), ops);
            Holds(dir, s, ops) && Loaded(dir, s, Expected(ops))
  {
    if ops != [] {
      var past, op := ops[..|ops| - 1], ops[|ops| - 1];
      RunHolds(dir, disk, past);
      var s := ApplyAll(dir, Initial(disk), past);
      assert past + [op] == ops;
      match op
      case Begin(_, _) => FirstHolds(dir, s, past, op); FirstLoaded(dir, s, past, op);
      case Create(_, _, _) => FirstHolds(dir, s, past, op); FirstLoaded(dir, s, past, op);
      case Append(_, _) => AppendHolds(dir, s, past, op);
      case ExecuteQuery(_, _) => GrabHolds(dir, s, past, op); GrabLoaded(dir, s, past, op);
      case ExecLoad(_) => GrabHolds(dir, s, past, op); GrabLoaded(dir, s, past, op);
    }
  }

  lemma SlashedSame(name: string)
    ensures AreSlashed(Slashed(name), name) && (Slashed(name) == name <==> '\\' !in name)
  {
    if '\\' in name {
      var i :| 0 <= i < |name| && name[i] == '\\';
      assert Slashed(name)[i] != name[i];
    }
  }

  /**
   At the end of any run, for any interleaving of ids, the printed statements are
   exactly those that have data, each one's file holds exactly that data, and the
   name it prints is the name of that file if and only if neither the directory nor
   the base name that its event gave has a backslash.
   */
  lemma LoadsFindTheirData(dir: string, disk: map<string, string>, ops: seq<Op>)
    requires !ApplyAll(dir, Initial(disk), ops).failed
    ensures var s, expected := ApplyAll(dir, Initial(disk), ops), Expected(ops);
            && |s.loads| == |expected|
            && forall i | 0 <= i < |s.loads| ::
                 && s.loads[i].file in s.disk && s.disk[s.loads[i].file] == expected[i].content
                 && AreSlashed(s.loads[i].name, s.loads[i].file)
                 && (s.loads[i].name == s.loads[i].file <==> '\\' !in dir && '\\' !in expected[i].base)
  {
    hide Expected, ApplyAll, Slashed;
    RunHolds(dir, disk, ops);
    var s := ApplyAll(dir, Initial(disk), ops);
    forall i | 0 <= i < |s.loads|
      ensures AreSlashed(s.loads[i].name, s.loads[i].file) && (s.loads[i].name == s.loads[i].file <==> '\\' !in s.loads[i].file)
    {
      SlashedSame(s.loads[i].file);
    }
  }

  /** All names are right exactly if nothing is printed or neither the directory nor any base of a printed load has a backslash. */
  lemma NamesRightIff(dir: string, disk: map<string, string>, ops: seq<Op>)
    requires !ApplyAll(dir, Initial(disk), ops).failed
    ensures var s, expected := ApplyAll(dir, Initial(disk), ops), Expected(ops);
            (forall i | 0 <= i < |s.loads| :: s.loads[i].name == s.loads[i].file) <==>
            expected == [] || ('\\' !in dir && forall d | d in expected :: '\\' !in d.base)
  {
    hide Expected, ApplyAll;
    LoadsFindTheirData(dir, disk, ops);
    var s, expected := ApplyAll(dir, Initial(disk), ops), Expected(ops);
    assert forall i | 0 <= i < |expected| :: expected[i] in expected;
    if expected != [] && forall i | 0 <= i < |s.loads| :: s.loads[i].name == s.loads[i].file {
      assert s.loads[0].name == s.loads[0].file;
      forall d | d in expected ensures '\\' !in d.base {
        var i :| 0 <= i < |expected| && expected[i] == d;
        assert s.loads[i].name == s.loads[i].file;
      }
    }
  }

  /** With a backslash in the directory the printed name is of no file of the run. */
  lemma BackslashMisleads(dir: string, block: string)
    requires '\\' in dir
    ensures var s := ApplyAll(dir, Initial(map[]), [Begin(1, block), ExecuteQuery(1, false)]);
            !s.failed && |s.loads| == 1 && s.loads[0].name !in s.disk
  {
    hide Slashed, NameOf;
    var ops := [Begin(1, block), ExecuteQuery(1, false)];
    var f := NameOf(dir, LOAD_BASE, 1, 0);
    assert ops[..1] == [Begin(1, block)] && ops[..1][..0] == [];
    var s1 := Apply(dir, Initial(map[]), ops[0]);
    assert ApplyAll(dir, Initial(map[]), ops[..1]) == s1 && s1.disk == map[f := block];
    var s := Apply(dir, s1, ops[1]);
    assert s.loads == [Load(Slashed(f), f)] && s.disk == s1.disk;
    SlashedSame(f);
    NameIsNamed(dir, LOAD_BASE, 1, 0);
  }

  /** Files that were there before the run are left alone, also when the run fails. */
  lemma {:induction false} OldFilesUntouched(dir: string, disk: map<string, string>, ops: seq<Op>)
    ensures var s := ApplyAll(dir, Initial(disk), ops);
            && (forall f | f in disk :: f in s.disk && s.disk[f] == disk[f])
            && (forall id | id in s.names && s.names[id].fname.Some? :: s.names[id].fname.value !in disk)
  {
    if ops != [] {
      OldFilesUntouched(dir, disk, ops[..|ops| - 1]);
    }
  }

  // ----- the class as it is written -----------------------------------------------------------

  class LoadProcessor {
    const targetDir: string
    var fileNames: map<nat, Record>
    var disk: map<string, string>
    var loads: seq<Load>
    var failed: bool

    constructor (dir: string, disk: map<string, string>)
      ensures targetDir == dir && View() == Initial(disk)
    {
      targetDir := dir;
      fileNames, this.disk, loads, failed := map[], disk, [], false;
    }

    ghost function View(): Loader
      reads this
    {
      Loader(fileNames, disk, loads, failed)
    }

    method CreateUniqueFile(base: string, id: nat) returns (version: Option<nat>)
      ensures version == FreeVersion(disk, targetDir, base, id, 0)
      ensures version.Some? ==> version.value < 1000 && NameOf(targetDir, base, id, version.value) !in disk
      ensures forall u | 0 <= u < (if version.Some? then version.value else 1000) :: NameOf(targetDir, base, id, u) in disk
    {
      var v := 0;
      while v < MAX_VERSIONS
        invariant 0 <= v <= MAX_VERSIONS
        invariant FreeVersion(disk, targetDir, base, id, v) == FreeVersion(disk, targetDir, base, id, 0)
      {
        if NameOf(targetDir, base, id, v) !in disk {
          return Some(v);
        }
        v := v + 1;
      }
      return None;
    }

    method ProcessFirstEvent(base: string, id: nat, block: string, create: bool)
      modifies this
      ensures View() == First(targetDir, old(View()), base, id, block, create)
    {
      var version := CreateUniqueFile(base, id);
      match version {
        case None => failed := true;
        case Some(v) =>
          var fname := NameOf(targetDir, base, id, v);
          fileNames := fileNames[id := Record(Some(fname), create)];
          disk := disk[fname := block];
      }
    }

    method ProcessAppend(id: nat, block: string)
      modifies this
      ensures View() == AppendTo(old(View()), id, block)
    {
      if id in fileNames && fileNames[id].fname.Some? {
        var fname := fileNames[id].fname.value;
        if fname in disk {
          disk := disk[fname := disk[fname] + block];
        } else {
          failed := true;
        }
      }
    }

    method GrabName(id: nat, create: bool) returns (fname: Option<string>)
      modifies this`fileNames
      ensures (View(), fname) == Grab(old(View()), id, create)
    {
      fname := None;
      if id in fileNames && fileNames[id].create == create {
        fname := fileNames[id].fname;
        fileNames := fileNames[id := Record(None, false)];
      }
    }

    method ConvertPathToForwardSlashes(name: string) returns (r: string)
      ensures r == Slashed(name) && AreSlashed(r, name)
    {
      r := name;
      var i := 0;
      while i < |name|
        invariant 0 <= i <= |name| == |r|
        invariant forall k | 0 <= k < i :: r[k] == Slashed(name)[k]
        invariant forall k | i <= k < |name| :: r[k] == name[k]
      {
        if r[i] == '\\' { r := r[i := '/']; }
        i := i + 1;
      }
    }

    method PrintLoad(fname: Option<string>)
      modifies this`loads
      ensures View() == Print(old(View()), fname)
    {
      match fname {
        case Some(file) =>
          var name := ConvertPathToForwardSlashes(file);
          loads := loads + [Load(name, file)];
        case None =>
      }
    }

    method Process(op: Op)
      modifies this
      ensures View() == Apply(targetDir, old(View()), op)
    {
      match op {
        case Begin(id, block) => ProcessFirstEvent(LOAD_BASE, id, block, false);
        case Create(base, id, block) => ProcessFirstEvent(base, id, block, true);
        case Append(id, block) => ProcessAppend(id, block);
        case ExecuteQuery(id, otherDatabase) =>
          var fname := GrabName(id, false);
          if !otherDatabase { PrintLoad(fname); }
        case ExecLoad(id) =>
          var fname := GrabName(id, true);
          PrintLoad(fname);
      }
    }
  }
}
