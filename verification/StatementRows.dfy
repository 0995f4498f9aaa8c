/**
 Whole sessions, described by what stands on their lines: a line may be a client
 command, run on inside a literal or a comment, or close one, hold any items, and
 end inside another.  The reader has the effect that this description gives, over
 any number of lines and interrupts, with and without --comments, whatever the
 server answers.
 */
module StatementRows {
  import opened StatementScanner
  import opened StatementTheorems
  import opened StatementComments
  import opened StatementItems

  /** How a line begins: outside everything, or with the rest of a literal or of a comment. */
  datatype Head = Anew | LiteralRest(body: string) | CommentRest(body: string)

  /** How a line ends: plainly, inside a literal or a comment that it opens, in a comment that runs to its end, or in a backslash. */
  datatype End = Plainly | Opening(q: char, tail: string) | Unclosed(body: string) | Remark(text: string) | Dangling

  datatype Row =
    | Interrupted
    | Command(text: string)
    | Continued(text: string, truncated: bool)
    | Items(head: Head, items: seq<Item>, end: End, truncated: bool)

  // ----- what a row means --------------------------------------------------------------------------

  function HeadEffect(e: Client, c: Carry, head: Head): Scan {
    match head
    case Anew => Begin(c)
    case LiteralRest(body) => AfterLiteral(Begin(c), body)
    case CommentRest(body) => StepClose(e, Within(e, Begin(c), body))
  }

  /** A comment to the end of the line: dropped, or kept and, where nothing precedes it, sent by itself. */
  function AfterRemark(e: Client, s: Scan, text: string): Scan {
    var f := Flush(s).(stop := true);
    var c := f.c.(buffer := f.c.buffer + text);
    if !e.keepComments then f else if f.c.buffer != "" then f.(c := c) else f.(c := Send(e, c))
  }

  function EndEffect(e: Client, s: Scan, end: End): Scan {
    if s.c.quit then s
    else
      match end
      case Plainly => s
      case Opening(q, tail) => AfterTail(KeepChar(e, s, q).(c := s.c.(quote := q)), tail)
      case Unclosed(body) => Within(e, StepOpen(e, s), body)
      case Remark(text) => AfterRemark(e, s, text)
      case Dangling => s.(pos := s.pos + 1, stop := true)
  }

  /** The effect of a line with the given contents. */
  function Effect(e: Client, c: Carry, row: Row): Carry {
    match row
    case Interrupted => c.(buffer := "", comment := false, quote := NUL)
    case Command(text) =>
      var command := FindCommand(e, text, c.delimiter);
      if command.None? then c else Perform(e, c, command.value, text)
    case Continued(text, truncated) =>
      if c.quote != NUL then c.(buffer := c.buffer + TailKept(c.noEscapes, text) + if truncated then "" else ['\n'])
      else Finish(e, Within(e, Begin(c), text), truncated)
    case Items(head, items, end, truncated) =>
      Finish(e, EndEffect(e, ItemsEffect(e, HeadEffect(e, c, head), items), end), truncated)
  }

  function Effects(e: Client, c: Carry, rows: seq<Row>): Carry
    decreases |rows|
  {
    if rows == [] || c.quit then c else Effects(e, Effect(e, c, rows[0]), rows[1..])
  }

  // ----- the line has these contents ------------------------------------------------------------------

  predicate HeadLaid(line: string, c: Carry, head: Head) {
    match head
    case Anew => c.quote == NUL && !c.comment
    case LiteralRest(body) => c.quote != NUL && StartsAt(line, 0, body + [c.quote]) && Body(c.quote, c.noEscapes, body)
    case CommentRest(body) => c.comment && StartsAt(line, 0, body + "*/") && BodyLaid(line, 0, NoSpecial, body)
  }

  predicate EndingLaid(line: string, s: Scan, end: End) {
    s.c.quit ||
    match end
    case Plainly => s.pos == |line|
    case Opening(q, tail) =>
      && s.pos < |line| && line[s.pos..] == [q] + tail && IsQuote(q) && OpenTail(q, s.c.noEscapes, tail)
      && s.special != Hint && !AtDelimiter(line, s)
    case Unclosed(body) => UnclosedLaid(line, s, body)
    case Remark(text) => s.pos < |line| && line[s.pos..] == text && LineComment(line, s.pos) && !AtDelimiter(line, s)
    case Dangling => s.pos + 1 == |line| && line[s.pos] == '\\'
  }

  predicate UnclosedLaid(line: string, s: Scan, body: string) {
    && s.pos < |line| && line[s.pos..] == "/*" + body && s.special != Hint && !SpecialAt(line, s.pos) && !AtDelimiter(line, s)
    && BodyLaid(line, s.pos + 2, s.special, body)
  }

  /** Whether the line is looked up as a client command, and is one. */
  predicate IsCommand(e: Client, c: Carry, line: string) {
    (e.namedCommands || c.buffer == "") && !c.comment && c.quote == NUL && FindCommand(e, line, c.delimiter).Some?
  }

  predicate RowLaid(e: Client, c: Carry, row: Row, i: Input) {
    match row
    case Interrupted => i.Interrupt?
    case Command(text) => i.Line? && i.text == text && IsCommand(e, c, text)
    case Continued(text, truncated) =>
      && i == Line(text, truncated) && NUL !in text
      && ((c.quote != NUL && OpenTail(c.quote, c.noEscapes, text)) || (c.comment && BodyLaid(text, 0, NoSpecial, text)))
    case Items(head, items, end, truncated) =>
      && i.Line? && i.truncated == truncated && NUL !in i.text && !IsCommand(e, c, i.text)
      && HeadLaid(i.text, c, head) && Laid(e, i.text, HeadEffect(e, c, head), items)
      && EndingLaid(i.text, ItemsEffect(e, HeadEffect(e, c, head), items), end)
  }

  // ----- the scan of a row -------------------------------------------------------------------------------

  /** The evaluation ends where the scanner halts. */
  ghost predicate Stops(line: string, run: Scan -> Scan) {
    forall t: Scan | ValidDelimiter(t.c.delimiter) && Halted(line, t) :: run(t) == t
  }

  lemma EvaluatorStops(e: Client, line: string)
    ensures Stops(line, Evaluator(e, line))
  {
  }

  /** A line that first closes a literal or a comment, or begins outside both. */
  lemma HeadRuns(e: Client, c: Carry, line: string, head: Head, run: Scan -> Scan)
    requires Evaluates(e, line, run) && Sound(c) && !c.quit && NUL !in line && HeadLaid(line, c, head)
    ensures var s := HeadEffect(e, c, head); run(Begin(c)) == run(s) && Between(e, line, s)
  {
    hide Step, Evaluates, Body, StaysIn, Within;
    match head
    case Anew =>
    case LiteralRest(body) =>
      LiteralKept(e, line, Begin(c), body, run);
      assert |body + [c.quote]| == |body| + 1;
    case CommentRest(body) =>
      var s := Begin(c);
      StartsSecond(line, 0, body, "*/");
      WithinRuns(e, line, s, body, run);
      CloseRuns(e, line, Within(e, s, body), run);
  }

  lemma RemarkRuns(e: Client, line: string, s: Scan, text: string, run: Scan -> Scan)
    requires Evaluates(e, line, run) && Between(e, line, s)
    requires s.pos < |line| && line[s.pos..] == text && LineComment(line, s.pos) && !AtDelimiter(line, s)
    ensures run(s) == run(AfterRemark(e, s, text)) && ValidDelimiter(AfterRemark(e, s, text).c.delimiter)
  {
    var t := Step(e, line, s);
  }

  /** A backslash that is the last character of a line is dropped. */
  lemma DanglingRuns(e: Client, line: string, s: Scan, run: Scan -> Scan)
    requires Evaluates(e, line, run) && Between(e, line, s) && s.pos + 1 == |line| && line[s.pos] == '\\'
    ensures run(s) == run(s.(pos := s.pos + 1, stop := true))
  {
    var t := Step(e, line, s);
  }

  lemma OpeningRuns(e: Client, line: string, s: Scan, q: char, tail: string, run: Scan -> Scan)
    requires Evaluates(e, line, run) && Between(e, line, s)
    requires s.pos < |line| && line[s.pos..] == [q] + tail && IsQuote(q) && OpenTail(q, s.c.noEscapes, tail)
    requires s.special != Hint && !AtDelimiter(line, s)
    ensures var t := AfterTail(KeepChar(e, s, q).(c := s.c.(quote := q)), tail); run(s) == run(t) && t.pos == |line|
  {
    hide Step, Evaluates, OpenTail, TailKept, EndsInBackslash;
    assert line[s.pos] == line[s.pos..][0] == q && line[s.pos + 1..] == line[s.pos..][1..] == tail;
    OpenQuote(e, line, s, run);
    TailRun(e, line, KeepChar(e, s, q).(c := s.c.(quote := q)), run);
  }

  lemma UnclosedRuns(e: Client, line: string, s: Scan, body: string, run: Scan -> Scan)
    requires Evaluates(e, line, run) && Between(e, line, s) && UnclosedLaid(line, s, body)
    ensures var t := Within(e, StepOpen(e, s), body); run(s) == run(t) && t.pos == |line| && ValidDelimiter(t.c.delimiter)
  {
    hide Step, Evaluates, Within, BodyLaid, SpecialAt;
    assert line[s.pos..s.pos + 2] == line[s.pos..][..2] == "/*";
    assert |line| == s.pos + 2 + |body|;
    OpenRuns(e, line, s, run);
    WithinRuns(e, line, StepOpen(e, s), body, run);
  }

  /** The rest of the line, from a place between two items. */
  lemma EndingRuns(e: Client, line: string, s: Scan, end: End, run: Scan -> Scan)
    requires Evaluates(e, line, run) && Stops(line, run) && Goes(e, line, s) && EndingLaid(line, s, end)
    ensures run(s) == EndEffect(e, s, end)
  {
    hide Step, Evaluates, OpenTail, TailKept, UnclosedLaid, Within, EndsInBackslash;
    if !s.c.quit {
      match end
      case Plainly =>
      case Opening(q, tail) => OpeningRuns(e, line, s, q, tail, run);
      case Unclosed(body) => UnclosedRuns(e, line, s, body, run);
      case Remark(text) => RemarkRuns(e, line, s, text, run);
      case Dangling => DanglingRuns(e, line, s, run);
    }
  }

  lemma ItemsRow(e: Client, c: Carry, row: Row, line: string)
    requires Sound(c) && !c.quit && row.Items? && RowLaid(e, c, row, Line(line, row.truncated))
    ensures Finish(e, Run(e, line, Begin(c)), row.truncated) == Effect(e, c, row)
  {
    hide Run, Evaluates, Stops, HeadLaid, Laid, EndingLaid, Finish, EndEffect, ItemsEffect, HeadEffect, IsCommand;
    var run := Evaluator(e, line);
    RunEvaluates(e, line);
    EvaluatorStops(e, line);
    var s := HeadEffect(e, c, row.head);
    HeadRuns(e, c, line, row.head, run);
    ItemsRun(e, line, s, row.items, run);
    EndingRuns(e, line, ItemsEffect(e, s, row.items), row.end, run);
  }

  lemma QuotedRow(e: Client, c: Carry, line: string, truncated: bool)
    requires Sound(c) && c.quote != NUL && !c.quit && NUL !in line && OpenTail(c.quote, c.noEscapes, line)
    ensures AddLine(e, c, line, truncated) == c.(buffer := c.buffer + TailKept(c.noEscapes, line) + if truncated then "" else ['\n'])
  {
    hide Run, Evaluates, Stops, OpenTail, TailKept, EndsInBackslash, IsDelimiterCommand;
    var run := Evaluator(e, line);
    RunEvaluates(e, line);
    EvaluatorStops(e, line);
    assert line[0..] == line;
    TailRun(e, line, Begin(c), run);
    HaltsAtEnd(line, AfterTail(Begin(c), line), run);
    assert "" + TailKept(c.noEscapes, line) == TailKept(c.noEscapes, line);
  }

  lemma CommentedRow(e: Client, c: Carry, line: string, truncated: bool)
    requires Sound(c) && c.comment && !c.quit && NUL !in line && BodyLaid(line, 0, NoSpecial, line)
    ensures Finish(e, Run(e, line, Begin(c)), truncated) == Finish(e, Within(e, Begin(c), line), truncated)
  {
    hide Run, Evaluates, Stops, Within, BodyLaid, Finish;
    RunEvaluates(e, line);
    EvaluatorStops(e, line);
    WithinRuns(e, line, Begin(c), line, Evaluator(e, line));
    HaltsAtEnd(line, Within(e, Begin(c), line), Evaluator(e, line));
  }

  lemma HaltsAtEnd(line: string, s: Scan, run: Scan -> Scan)
    requires Stops(line, run) && ValidDelimiter(s.c.delimiter) && s.pos == |line|
    ensures run(s) == s
  {
  }

  lemma EmptyLine(e: Client, c: Carry, truncated: bool)
    requires ValidDelimiter(c.delimiter) && c.buffer == ""
    ensures Finish(e, Run(e, "", Begin(c)), truncated) == c
  {
  }

  /** An input has the effect of its row. */
  lemma RowRead(e: Client, c: Carry, row: Row, i: Input)
    requires Sound(c) && !c.quit && RowLaid(e, c, row, i)
    ensures ReadInput(e, c, i) == Effect(e, c, row)
  {
    hide Run, Finish, HeadLaid, Laid, EndingLaid, OpenTail, TailKept, BodyLaid, FindCommand, Perform, HeadEffect, ItemsEffect, EndEffect, Within;
    match row
    case Interrupted =>
    case Command(text) => PerformKeepsQuote(e, c, text);
    case Continued(text, truncated) =>
      if c.quote != NUL {
        QuotedRow(e, c, text, truncated);
      } else {
        CommentedRow(e, c, text, truncated);
        if text == "" && c.buffer == "" { EmptyLine(e, c, truncated); }
      }
    case Items(head, items, end, truncated) =>
      ItemsRow(e, c, row, i.text);
      if i.text == "" && c.buffer == "" { EmptyLine(e, c, truncated); }
  }

  lemma PerformKeepsQuote(e: Client, c: Carry, text: string)
    requires c.quote == NUL && FindCommand(e, text, c.delimiter).Some?
    ensures Perform(e, c, FindCommand(e, text, c.delimiter).value, text).quote == NUL
  {
    hide FindCommand;
  }

  // ----- whole sessions ---------------------------------------------------------------------------------------

  /** The inputs have these contents, as long as the session goes on. */
  predicate RowsLaid(e: Client, c: Carry, rows: seq<Row>, inputs: seq<Input>)
    decreases |rows|
  {
    && |rows| == |inputs|
    && (rows == [] || c.quit || (RowLaid(e, c, rows[0], inputs[0]) && RowsLaid(e, Effect(e, c, rows[0]), rows[1..], inputs[1..])))
  }

  lemma RowSound(e: Client, c: Carry, row: Row, i: Input)
    requires Sound(c) && !c.quit && RowLaid(e, c, row, i)
    ensures Sound(ReadInput(e, c, i))
  {
    hide Run, Finish, HeadLaid, Laid, EndingLaid, OpenTail, BodyLaid, FindCommand, Perform, AddLine;
    if i.Line? && !IsCommand(e, c, i.text) { AddLineSound(e, c, i.text, i.truncated); }
  }

  /** Over any number of inputs the reader has the effects of their rows, one after the other. */
  lemma {:induction false} RowsRead(e: Client, c: Carry, rows: seq<Row>, inputs: seq<Input>)
    requires Sound(c) && RowsLaid(e, c, rows, inputs)
    ensures ReadAll(e, c, inputs) == Effects(e, c, rows)
    decreases |rows|
  {
    hide ReadInput, RowLaid, Effect, Sound;
    if rows != [] && !c.quit {
      RowRead(e, c, rows[0], inputs[0]);
      RowSound(e, c, rows[0], inputs[0]);
      RowsRead(e, Effect(e, c, rows[0]), rows[1..], inputs[1..]);
    }
  }
}
