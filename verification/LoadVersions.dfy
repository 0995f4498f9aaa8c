/**
 When `Load_log_processor` runs out of file names: the versions that the names of one
 LOAD DATA statement can have are counted on the disk and over the events.
 */
module LoadVersions {
  import opened Wrappers
  import opened LoadFiles

  // ----- a name tells what it was made of -------------------------------------------------------------

  predicate IsHex(ch: char) {
    '0' <= ch <= '9' || 'a' <= ch <= 'f'
  }

  function Digit(ch: char): nat {
    if '0' <= ch <= '9' then ch as int - '0' as int else if 'a' <= ch <= 'f' then ch as int - 'a' as int + 10 else 0
  }

  /** The number that a hexadecimal text stands for. */
  function Value(text: string): nat {
    if text == "" then 0 else 16 * Value(text[..|text| - 1]) + Digit(text[|text| - 1])
  }

  lemma DigitsAre(d: nat)
    requires d < 16
    ensures var ch := "0123456789abcdef"[d]; Digit(ch) == d && IsHex(ch)
  {
  }

  lemma {:induction false} HexValue(n: nat)
    ensures Value(Hex(n)) == n && Hex(n) != "" && forall ch | ch in Hex(n) :: IsHex(ch)
  {
    hide IsHex, Digit;
    var front, last := if n < 16 then "" else Hex(n / 16), "0123456789abcdef"[n % 16];
    if n >= 16 { HexValue(n / 16); }
    DigitsAre(n % 16);
    assert Hex(n) == front + [last];
    assert Hex(n)[..|front|] == front;
    assert Value(front) == n / 16;
  }

  lemma SameEnd(a: string, x: string, b: string, y: string)
    requires a + "-" + x == b + "-" + y && '-' !in x && '-' !in y
    ensures a == b && x == y
  {
    var t := a + "-" + x;
    assert t[|a|] == '-' && t[|b|] == '-';
    assert forall k | |a| < k < |t| :: t[k] == x[k - |a| - 1];
    assert forall k | |b| < k < |t| :: t[k] == y[k - |b| - 1];
    assert a == t[..|a|] && b == t[..|b|] && x == t[|a| + 1..] && y == t[|b| + 1..];
  }

  /** Two names are equal only if base, id and version are. */
  lemma NamesDiffer(dir: string, base: string, id: nat, v: nat, base': string, id': nat, v': nat)
    ensures NameOf(dir, base, id, v) == NameOf(dir, base', id', v') ==> base == base' && id == id' && v == v'
  {
    hide Hex, Value;
    assert !IsHex('-');
    if NameOf(dir, base, id, v) == NameOf(dir, base', id', v') {
      HexValue(id);
      HexValue(id');
      HexValue(v);
      HexValue(v');
      SameEnd(dir + base + "-" + Hex(id), Hex(v), dir + base' + "-" + Hex(id'), Hex(v'));
      SameEnd(dir + base, Hex(id), dir + base', Hex(id'));
      assert base == (dir + base)[|dir|..] && base' == (dir + base')[|dir|..];
    }
  }

  // ----- counting versions -----------------------------------------------------------------------------

  /** How many of the first `n` versions of a name are on the disk. */
  function Taken(disk: map<string, string>, dir: string, base: string, id: nat, n: nat): (r: nat)
    ensures r <= n
  {
    if n == 0 then 0
    else Taken(disk, dir, base, id, n - 1) + if NameOf(dir, base, id, n - 1) in disk then 1 else 0
  }

  lemma {:induction false} AllTakenIff(disk: map<string, string>, dir: string, base: string, id: nat, n: nat)
    ensures Taken(disk, dir, base, id, n) == n <==> forall v | 0 <= v < n :: NameOf(dir, base, id, v) in disk
  {
    hide NameOf;
    if n > 0 { AllTakenIff(disk, dir, base, id, n - 1); }
  }

  lemma {:induction false} TakenSame(disk: map<string, string>, disk': map<string, string>, dir: string, base: string, id: nat, n: nat)
    requires forall v | 0 <= v < n :: NameOf(dir, base, id, v) in disk <==> NameOf(dir, base, id, v) in disk'
    ensures Taken(disk, dir, base, id, n) == Taken(disk', dir, base, id, n)
  {
    hide NameOf;
    if n > 0 { TakenSame(disk, disk', dir, base, id, n - 1); }
  }

  /** A new file takes one version of its own name and none of any other. */
  lemma {:induction false} OneMore(disk: map<string, string>, dir: string, base: string, id: nat, n: nat,
                                   base': string, id': nat, v: nat, block: string)
    requires NameOf(dir, base', id', v) !in disk
    ensures Taken(disk[NameOf(dir, base', id', v) := block], dir, base, id, n) ==
            Taken(disk, dir, base, id, n) + if base == base' && id == id' && v < n then 1 else 0
  {
    hide NameOf;
    if n > 0 {
      OneMore(disk, dir, base, id, n - 1, base', id', v, block);
      NamesDiffer(dir, base, id, n - 1, base', id', v);
    }
  }

  // ----- over the events -----------------------------------------------------------------------------------

  /** The event begins a file under this name. */
  predicate Begins(op: Op, base: string, id: nat) {
    (op.Begin? || op.Create?) && BaseOf(op) == base && op.id == id
  }

  function Begun(ops: seq<Op>, base: string, id: nat): nat {
    if ops == [] then 0 else Begun(ops[..|ops| - 1], base, id) + if Begins(ops[|ops| - 1], base, id) then 1 else 0
  }

  /** The event begins a file, and every version of its name is on the disk or was used before. */
  predicate UsedUp(dir: string, disk: map<string, string>, ops: seq<Op>, i: nat)
    requires i < |ops|
  {
    var op := ops[i];
    (op.Begin? || op.Create?) && Taken(disk, dir, BaseOf(op), op.id, 1000) + Begun(ops[..i], BaseOf(op), op.id) >= 1000
  }

  lemma DomainKept(dir: string, s: Loader, past: seq<Op>, op: Op)
    requires Holds(dir, s, past) && Loaded(dir, s, Expected(past)) && !s.failed && !op.Begin? && !op.Create?
    ensures !Apply(dir, s, op).failed && Apply(dir, s, op).disk.Keys == s.disk.Keys
  {
    hide Expected, Holds;
    if op.Append? {
      AppendHolds(dir, s, past, op);
    } else {
      GrabHolds(dir, s, past, op);
    }
  }

  /** An event that begins a file fails exactly if all versions are taken. */
  lemma BeginFails(dir: string, s: Loader, op: Op)
    requires (op.Begin? || op.Create?) && !s.failed
    ensures Apply(dir, s, op).failed <==> Taken(s.disk, dir, BaseOf(op), op.id, 1000) >= 1000
    ensures !Apply(dir, s, op).failed ==> exists v: nat | v < 1000 ::
              NameOf(dir, BaseOf(op), op.id, v) !in s.disk && Apply(dir, s, op).disk == s.disk[NameOf(dir, BaseOf(op), op.id, v) := op.block]
  {
    hide NameOf;
    AllTakenIff(s.disk, dir, BaseOf(op), op.id, 1000);
    assert Apply(dir, s, op) == First(dir, s, BaseOf(op), op.id, op.block, op.Create?);
    var r := FreeVersion(s.disk, dir, BaseOf(op), op.id, 0);
  }

  /** As long as the run goes on, the versions taken are those of the old files and one for each event. */
  lemma {:induction false} TakenInRun(dir: string, disk: map<string, string>, ops: seq<Op>, base: string, id: nat)
    requires !ApplyAll(dir, Initial(disk), ops).failed
    ensures Taken(ApplyAll(dir, Initial(disk), ops).disk, dir, base, id, 1000) == Taken(disk, dir, base, id, 1000) + Begun(ops, base, id)
  {
    hide NameOf, Taken, Apply, Holds;
    if ops != [] {
      var past, op := ops[..|ops| - 1], ops[|ops| - 1];
      var s := ApplyAll(dir, Initial(disk), past);
      TakenInRun(dir, disk, past, base, id);
      if op.Begin? || op.Create? {
        BeginFails(dir, s, op);
        var v: nat :| v < 1000 && NameOf(dir, BaseOf(op), op.id, v) !in s.disk
                      && Apply(dir, s, op).disk == s.disk[NameOf(dir, BaseOf(op), op.id, v) := op.block];
        OneMore(s.disk, dir, base, id, 1000, BaseOf(op), op.id, v, op.block);
      } else {
        RunHolds(dir, disk, past);
        DomainKept(dir, s, past, op);
        var t := Apply(dir, s, op);
        assert forall f :: f in s.disk <==> f in t.disk by { assert forall f :: f in t.disk <==> f in t.disk.Keys; }
        TakenSame(s.disk, t.disk, dir, base, id, 1000);
      }
    }
  }

  lemma SoonerUsedUp(dir: string, disk: map<string, string>, ops: seq<Op>, i: nat)
    requires ops != [] && i < |ops| - 1
    ensures UsedUp(dir, disk, ops, i) <==> UsedUp(dir, disk, ops[..|ops| - 1], i)
  {
    assert ops[..|ops| - 1][..i] == ops[..i];
  }

  /**
   A run fails exactly if it comes to an event that begins a file when the old files and
   the events before it have used all thousand versions of its name.
   */
  lemma {:induction false} FailsIff(dir: string, disk: map<string, string>, ops: seq<Op>)
    ensures ApplyAll(dir, Initial(disk), ops).failed <==> exists i | 0 <= i < |ops| :: UsedUp(dir, disk, ops, i)
  {
    hide Taken, Apply, Holds, UsedUp;
    if ops != [] {
      var past, op := ops[..|ops| - 1], ops[|ops| - 1];
      var s := ApplyAll(dir, Initial(disk), past);
      FailsIff(dir, disk, past);
      forall i | 0 <= i < |past| ensures UsedUp(dir, disk, ops, i) <==> UsedUp(dir, disk, past, i) {
        SoonerUsedUp(dir, disk, ops, i);
      }
      if !s.failed { LastFails(dir, disk, ops, s); }
    }
  }

  lemma LastFails(dir: string, disk: map<string, string>, ops: seq<Op>, s: Loader)
    requires ops != [] && s == ApplyAll(dir, Initial(disk), ops[..|ops| - 1]) && !s.failed
    ensures Apply(dir, s, ops[|ops| - 1]).failed <==> UsedUp(dir, disk, ops, |ops| - 1)
  {
    hide Taken, Apply, Holds, ApplyAll, Begun;
    var past, op := ops[..|ops| - 1], ops[|ops| - 1];
    if op.Begin? || op.Create? {
      BeginFails(dir, s, op);
      TakenInRun(dir, disk, past, BaseOf(op), op.id);
    } else {
      RunHolds(dir, disk, past);
      DomainKept(dir, s, past, op);
    }
  }

  lemma {:induction false} BegunAtMost(ops: seq<Op>, base: string, id: nat)
    ensures Begun(ops, base, id) <= |ops|
  {
    if ops != [] { BegunAtMost(ops[..|ops| - 1], base, id); }
  }

  /** With less than a thousand versions on the disk, and events, no run fails. */
  lemma FewNeverFail(dir: string, disk: map<string, string>, ops: seq<Op>)
    requires forall op | op in ops && (op.Begin? || op.Create?) :: Taken(disk, dir, BaseOf(op), op.id, 1000) + |ops| <= 1000
    ensures !ApplyAll(dir, Initial(disk), ops).failed
  {
    hide ApplyAll, Taken;
    FailsIff(dir, disk, ops);
    forall i | 0 <= i < |ops| ensures !UsedUp(dir, disk, ops, i) {
      var op := ops[i];
      if op.Begin? || op.Create? { BegunAtMost(ops[..i], BaseOf(op), op.id); }
    }
  }

  lemma FirstNames(dir: string)
    ensures NameOf(dir, LOAD_BASE, 1, 0) == dir + "SQL_LOAD_MB-1-0" && NameOf(dir, LOAD_BASE, 1, 1) == dir + "SQL_LOAD_MB-1-1"
  {
    assert Hex(0) == "0" && Hex(1) == "1";
    assert dir + "SQL_LOAD_MB" + "-" + "1" + "-" == dir + "SQL_LOAD_MB-1-";
  }

  /** A second run in the same directory takes the next version. */
  lemma SecondRun(dir: string, was: string, block: string)
    ensures var f, g := dir + "SQL_LOAD_MB-1-0", dir + "SQL_LOAD_MB-1-1";
            var s := ApplyAll(dir, Initial(map[f := was]), [Begin(1, block), ExecuteQuery(1, false)]);
            !s.failed && s.disk == map[f := was, g := block] && |s.loads| == 1 && s.loads[0].file == g
  {
    hide NameOf, Slashed;
    var f, g := NameOf(dir, LOAD_BASE, 1, 0), NameOf(dir, LOAD_BASE, 1, 1);
    FirstNames(dir);
    NamesDiffer(dir, LOAD_BASE, 1, 0, LOAD_BASE, 1, 1);
    var ops, s := [Begin(1, block), ExecuteQuery(1, false)], Initial(map[f := was]);
    var r := FreeVersion(s.disk, dir, LOAD_BASE, 1, 0);
    assert g !in s.disk;
    assert r == Some(1);
    assert ops[..1] == [ops[0]] && [ops[0]][..0] == [];
    assert ApplyAll(dir, s, ops[..1]) == Apply(dir, s, ops[0]);
  }
}
