/**
 Extended inserts of `mysqldump`: rows are packed greedily into INSERT statements
 under a limit of `net_buffer_length` bytes.
 */
module InsertPacking {

  // ----- the accounting ------------------------------------------------------------------------

  /** What the dump counts for a row: its text, a comma and one byte to spare. */
  function RowLength(row: string): nat { 2 + |row| }

  function Total(rows: seq<string>): nat {
    if rows == [] then 0 else Total(rows[..|rows| - 1]) + RowLength(rows[|rows| - 1])
  }

  /** What it counts for a statement with these rows, behind the given INSERT head. */
  function Counted(head: string, rows: seq<string>): nat {
    |head| + 4 + Total(rows)
  }

  /** A statement is admissible if it has one row or stays below the limit. */
  predicate Fits(head: string, limit: nat, rows: seq<string>) {
    |rows| == 1 || (|rows| > 1 && Counted(head, rows) < limit)
  }

  // ----- splits of the rows ----------------------------------------------------------------------

  function Flatten(groups: seq<seq<string>>): seq<string> {
    if groups == [] then [] else Flatten(groups[..|groups| - 1]) + groups[|groups| - 1]
  }

  /** The groups hold exactly these rows, in order, and each is admissible. */
  predicate IsSplit(head: string, limit: nat, groups: seq<seq<string>>, rows: seq<string>) {
    Flatten(groups) == rows && forall g | g in groups :: Fits(head, limit, g)
  }

  /** The statement with the next row still fits. */
  predicate Joins(head: string, limit: nat, groups: seq<seq<string>>, row: string) {
    groups != [] && Counted(head, groups[|groups| - 1]) + RowLength(row) < limit
  }

  /** One turn of the row loop: the row joins the last statement or starts a new one. */
  function Pack(head: string, limit: nat, groups: seq<seq<string>>, row: string): seq<seq<string>> {
    if Joins(head, limit, groups, row)
    then groups[..|groups| - 1] + [groups[|groups| - 1] + [row]]
    else groups + [[row]]
  }

  function PackAll(head: string, limit: nat, rows: seq<string>): seq<seq<string>> {
    if rows == [] then [] else Pack(head, limit, PackAll(head, limit, rows[..|rows| - 1]), rows[|rows| - 1])
  }

  // ----- all rows, once, in order, in admissible statements -----------------------------------------

  lemma TotalSnoc(rows: seq<string>, row: string)
    ensures Total(rows + [row]) == Total(rows) + RowLength(row)
  {
    assert (rows + [row])[..|rows|] == rows;
  }

  lemma FlattenSnoc(groups: seq<seq<string>>, g: seq<string>)
    ensures Flatten(groups + [g]) == Flatten(groups) + g
  {
    assert (groups + [g])[..|groups|] == groups;
  }

  lemma {:induction false} PackAllSplits(head: string, limit: nat, rows: seq<string>)
    ensures IsSplit(head, limit, PackAll(head, limit, rows), rows)
  {
    if rows != [] {
      var before, row := rows[..|rows| - 1], rows[|rows| - 1];
      var groups := PackAll(head, limit, before);
      PackAllSplits(head, limit, before);
      assert before + [row] == rows;
      if Joins(head, limit, groups, row) {
        var last := groups[|groups| - 1];
        assert Fits(head, limit, last);
        TotalSnoc(last, row);
        FlattenSnoc(groups[..|groups| - 1], last + [row]);
        assert Flatten(groups[..|groups| - 1]) + (last + [row]) == Flatten(groups) + [row];
      } else {
        FlattenSnoc(groups, [row]);
      }
    }
  }

  // ----- the text of the file ------------------------------------------------------------------------

  function Joined(rows: seq<string>): string {
    if rows == [] then ""
    else if |rows| == 1 then rows[0]
    else Joined(rows[..|rows| - 1]) + "," + rows[|rows| - 1]
  }

  function Statement(head: string, rows: seq<string>): string {
    head + Joined(rows) + ";\n"
  }

  function Text(head: string, groups: seq<seq<string>>): string {
    if groups == [] then "" else Text(head, groups[..|groups| - 1]) + Statement(head, groups[|groups| - 1])
  }

  /** Two rows in one statement and a third in another. */
  lemma TextOfThree(head: string, a: string, b: string, c: string)
    ensures Text(head, [[a, b], [c]]) == (head + a + "," + b + ";\n") + (head + c + ";\n")
  {
    assert [[a, b], [c]][..1] == [[a, b]] && [[a, b]][..0] == [];
    assert [a, b][..1] == [a] && [a][..0] == [] && [c][..0] == [];
    assert Joined([a, b]) == a + "," + b && Joined([c]) == c;
    assert head + (a + "," + b) + ";\n" == head + a + "," + b + ";\n";
    var one, two := Statement(head, [a, b]), Statement(head, [c]);
    assert Text(head, [[a, b]]) == "" + one == one;
    assert Text(head, [[a, b], [c]]) == one + two;
  }

  lemma {:induction false} JoinedLength(rows: seq<string>)
    requires rows != []
    ensures |Joined(rows)| + |rows| + 1 == Total(rows)
  {
    if |rows| > 1 { JoinedLength(rows[..|rows| - 1]); }
  }

  /** The accounting never counts less than what is written: longer statements stay below the limit. */
  lemma StatementBelowLimit(head: string, limit: nat, rows: seq<string>)
    requires Fits(head, limit, rows)
    ensures |Statement(head, rows)| < Counted(head, rows)
    ensures |rows| >= 2 ==> |Statement(head, rows)| < limit
  {
    JoinedLength(rows);
  }

  // ----- no split needs fewer statements ---------------------------------------------------------------

  lemma {:induction false} TotalSuffix(rows: seq<string>, k: nat)
    requires k <= |rows|
    ensures Total(rows[k..]) <= Total(rows)
    decreases |rows|
  {
    if k < |rows| {
      TotalSuffix(rows[..|rows| - 1], k);
      assert rows[k..][..|rows[k..]| - 1] == rows[..|rows| - 1][k..];
    }
  }

  /** How the greedy packing of a prefix compares with any split of it: no more statements, and if as many, a last one no longer. */
  predicate Ahead(greedy: seq<seq<string>>, other: seq<seq<string>>) {
    || |greedy| < |other|
    || (|greedy| == |other| && (greedy == [] || IsSuffix(greedy[|greedy| - 1], other[|other| - 1])))
  }

  predicate IsSuffix(a: seq<string>, b: seq<string>) {
    |a| <= |b| && b[|b| - |a|..] == a
  }

  /** Any split of `rows + [row]` comes from a split of `rows`. */
  function DropLast(groups: seq<seq<string>>): seq<seq<string>>
    requires groups != [] && groups[|groups| - 1] != []
  {
    var last := groups[|groups| - 1];
    if |last| == 1 then groups[..|groups| - 1]
    else groups[..|groups| - 1] + [last[..|last| - 1]]
  }

  lemma DropLastSplits(head: string, limit: nat, groups: seq<seq<string>>, rows: seq<string>, row: string)
    requires IsSplit(head, limit, groups, rows + [row])
    ensures groups != [] && groups[|groups| - 1] != [] && groups[|groups| - 1][|groups[|groups| - 1]| - 1] == row
    ensures IsSplit(head, limit, DropLast(groups), rows)
  {
    var last := groups[|groups| - 1];
    var front := groups[..|groups| - 1];
    assert Fits(head, limit, last);
    assert Flatten(groups) == Flatten(front) + last;
    assert last[|last| - 1] == (rows + [row])[|rows|];
    if |last| == 1 {
      assert Flatten(front) == (Flatten(front) + last)[..|rows|] == rows;
    } else {
      var shorter := last[..|last| - 1];
      assert (Flatten(front) + last)[..|rows|] == Flatten(front) + shorter;
      FlattenSnoc(front, shorter);
    }
  }

  lemma PackStaysAhead(head: string, limit: nat, greedy: seq<seq<string>>, other: seq<seq<string>>, row: string)
    requires other != [] && other[|other| - 1] != [] && other[|other| - 1][|other[|other| - 1]| - 1] == row
    requires Fits(head, limit, other[|other| - 1])
    requires Ahead(greedy, DropLast(other))
    ensures Ahead(Pack(head, limit, greedy, row), other)
  {
    var last := other[|other| - 1];
    if |last| > 1 && |greedy| == |other| {
      var shorter := last[..|last| - 1];
      var g := greedy[|greedy| - 1];
      assert IsSuffix(g, shorter);
      TotalSuffix(shorter, |shorter| - |g|);
      assert shorter[|shorter| - |g|..] == g;
      assert Counted(head, g) + RowLength(row) <= Counted(head, last);
      assert last[|last| - |g| - 1..] == g + [row];
    }
  }

  lemma {:induction false} FlattenLength(head: string, limit: nat, groups: seq<seq<string>>)
    requires forall g | g in groups :: Fits(head, limit, g)
    ensures |Flatten(groups)| >= |groups|
  {
    if groups != [] {
      assert Fits(head, limit, groups[|groups| - 1]);
      FlattenLength(head, limit, groups[..|groups| - 1]);
    }
  }

  lemma {:induction false} GreedyIsAhead(head: string, limit: nat, rows: seq<string>, other: seq<seq<string>>)
    requires IsSplit(head, limit, other, rows)
    ensures Ahead(PackAll(head, limit, rows), other)
    decreases |rows|
  {
    if rows == [] {
      FlattenLength(head, limit, other);
    } else {
      var before, row := rows[..|rows| - 1], rows[|rows| - 1];
      assert before + [row] == rows;
      DropLastSplits(head, limit, other, before, row);
      GreedyIsAhead(head, limit, before, DropLast(other));
      PackStaysAhead(head, limit, PackAll(head, limit, before), other, row);
    }
  }

  /** No way of splitting the rows in order under the same accounting uses fewer statements. */
  lemma FewestStatements(head: string, limit: nat, rows: seq<string>, other: seq<seq<string>>)
    requires IsSplit(head, limit, other, rows)
    ensures |PackAll(head, limit, rows)| <= |other|
  {
    GreedyIsAhead(head, limit, rows, other);
  }

  // ----- the loop as it is written -----------------------------------------------------------------------

  /** The file while the last statement is still open. */
  function OpenText(head: string, groups: seq<seq<string>>): string {
    if groups == [] then "" else Text(head, groups[..|groups| - 1]) + head + Joined(groups[|groups| - 1])
  }

  lemma {:induction false} ClosedText(head: string, groups: seq<seq<string>>)
    requires groups != []
    ensures Text(head, groups) == OpenText(head, groups) + ";\n"
  {
    var closed, last := Text(head, groups[..|groups| - 1]), Joined(groups[|groups| - 1]);
    assert closed + (head + last + ";\n") == closed + head + last + ";\n";
  }

  lemma PackCounted(head: string, limit: nat, groups: seq<seq<string>>, row: string)
    ensures var packed := Pack(head, limit, groups, row);
            Counted(head, packed[|packed| - 1]) ==
              if Joins(head, limit, groups, row) then Counted(head, groups[|groups| - 1]) + RowLength(row)
              else |head| + 4 + RowLength(row)
  {
    if Joins(head, limit, groups, row) {
      TotalSnoc(groups[|groups| - 1], row);
    } else {
      TotalSnoc([], row);
      assert [] + [row] == [row];
    }
  }

  lemma {:induction false} PackText(head: string, limit: nat, groups: seq<seq<string>>, row: string)
    requires forall g | g in groups :: g != []
    ensures OpenText(head, Pack(head, limit, groups, row)) ==
            if Joins(head, limit, groups, row) then OpenText(head, groups) + "," + row
            else OpenText(head, groups) + (if groups == [] then "" else ";\n") + head + row
  {
    if Joins(head, limit, groups, row) {
      var last := groups[|groups| - 1];
      assert last in groups;
      assert (last + [row])[..|last|] == last;
      assert Pack(head, limit, groups, row)[..|groups| - 1] == groups[..|groups| - 1];
    } else {
      assert (groups + [[row]])[..|groups|] == groups;
      if groups != [] { ClosedText(head, groups); }
    }
  }

  /** What the loop variables say about the statements written so far. */
  ghost predicate Written(head: string, limit: nat, groups: seq<seq<string>>, file: string, totalLength: nat, rowBreak: bool) {
    && file == OpenText(head, groups)
    && rowBreak == (groups != [])
    && totalLength == if groups == [] then limit else Counted(head, groups[|groups| - 1])
  }

  method WriteRow(head: string, limit: nat, row: string, file: string, totalLength: nat, rowBreak: bool,
                  ghost groups: seq<seq<string>>)
    returns (newFile: string, newTotal: nat)
    requires Written(head, limit, groups, file, totalLength, rowBreak)
    requires forall g | g in groups :: g != []
    ensures Written(head, limit, Pack(head, limit, groups, row), newFile, newTotal, true)
  {
    PackText(head, limit, groups, row);
    PackCounted(head, limit, groups, row);
    var rowLength := 2 + |row|;
    if totalLength + rowLength < limit {
      newTotal := totalLength + rowLength;
      newFile := file + "," + row;
    } else {
      newFile := file + (if rowBreak then ";\n" else "") + head + row;
      newTotal := rowLength + (|head| + 4);
    }
  }

  /** The row loop of `dump_table` with --extended-insert. */
  method WriteRows(head: string, limit: nat, rows: seq<string>) returns (file: string)
    ensures file == Text(head, PackAll(head, limit, rows))
  {
    file := "";
    var totalLength := limit;
    var rowBreak := false;
    var i := 0;
    while i < |rows|
      invariant 0 <= i <= |rows|
      invariant Written(head, limit, PackAll(head, limit, rows[..i]), file, totalLength, rowBreak)
    {
      PackAllSplits(head, limit, rows[..i]);
      assert rows[..i + 1][..i] == rows[..i];
      file, totalLength := WriteRow(head, limit, rows[i], file, totalLength, rowBreak, PackAll(head, limit, rows[..i]));
      rowBreak := true;
      i := i + 1;
    }
    assert rows[..i] == rows;
    if rowBreak {
      ClosedText(head, PackAll(head, limit, rows));
      file := file + ";\n";
    }
  }
}
