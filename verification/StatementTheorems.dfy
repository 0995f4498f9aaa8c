/**
 What the statement reader promises: over every session the open quote and the
 open comment exclude each other, statements are sent outside of both only, and
 quoted text arrives untouched and is never cut at a delimiter.
 */
module StatementTheorems {
  import opened Sequences
  import opened StatementScanner

  // ----- the invariant of every session ---------------------------------------

  /** At a line boundary: at most one of quote and comment is open, and an open quote is in the buffer. */
  predicate Sound(c: Carry) {
    && ValidDelimiter(c.delimiter)
    && (c.quote == NUL || IsQuote(c.quote))
    && (c.quote != NUL ==> !c.comment && c.buffer != "")
  }

  predicate SoundScan(e: Client, s: Scan) {
    && ValidDelimiter(s.c.delimiter)
    && (s.c.quote == NUL || IsQuote(s.c.quote))
    && (s.c.quote != NUL ==> !s.c.comment && !s.space && !s.c.quit && (s.c.buffer != "" || s.out != ""))
    && (s.c.comment && !e.keepComments ==> s.out == "")
  }

  lemma BackslashSound(e: Client, line: string, s: Scan)
    requires s.pos < |line| && SoundScan(e, s) && AtBackslash(line, s)
    ensures SoundScan(e, StepBackslash(e, line, s))
  {
  }

  lemma DelimiterSound(e: Client, line: string, s: Scan)
    requires s.pos < |line| && SoundScan(e, s) && AtDelimiter(line, s)
    ensures SoundScan(e, StepDelimiter(e, line, s))
  {
  }

  lemma KeepSound(e: Client, line: string, s: Scan)
    requires !Halted(line, s) && NUL !in line && SoundScan(e, s)
    ensures SoundScan(e, StepKeep(e, line, s))
  {
  }

  lemma StepSound(e: Client, line: string, s: Scan)
    requires !Halted(line, s) && NUL !in line && SoundScan(e, s)
    ensures SoundScan(e, Step(e, line, s))
  {
    match BranchAt(e, line, s)
    case Backslash => BackslashSound(e, line, s);
    case Delimiter => DelimiterSound(e, line, s);
    case Keep => KeepSound(e, line, s);
    case _ =>
  }

  lemma {:induction false} RunSound(e: Client, line: string, s: Scan)
    requires NUL !in line && SoundScan(e, s)
    ensures SoundScan(e, Run(e, line, s))
    decreases |line| - s.pos, if Halted(line, s) then 0 else 1
  {
    if !Halted(line, s) {
      StepSound(e, line, s);
      RunSound(e, line, Step(e, line, s));
    }
  }

  lemma AddLineSound(e: Client, c: Carry, line: string, truncated: bool)
    requires Sound(c) && NUL !in line && !c.quit
    ensures Sound(AddLine(e, c, line, truncated))
  {
    RunSound(e, line, Begin(c));
  }

  /** Over every session the reader is never inside a quote and a comment at once. */
  lemma {:induction false} SessionSound(e: Client, c: Carry, inputs: seq<Input>)
    requires Sound(c)
    requires forall i | i in inputs && i.Line? :: NUL !in i.text
    ensures Sound(ReadAll(e, c, inputs))
    decreases |inputs|
  {
    if inputs != [] && !c.quit {
      var i := inputs[0];
      if i.Line? {
        assert i in inputs;
        AddLineSound(e, c, i.text, i.truncated);
      }
      SessionSound(e, ReadInput(e, c, i), inputs[1..]);
    }
  }

  /**
   Whatever leaves the reader leaves it outside quotes and comments, and inside a
   hint only a backslash command or a line comment can make it leave.
   */
  lemma SendsOnlyOutside(e: Client, line: string, s: Scan)
    requires !Halted(line, s) && Step(e, line, s).c.log != s.c.log
    ensures s.c.quote == NUL && !s.c.comment
    ensures s.special == Hint ==> AtBackslash(line, s) || AtLineComment(line, s)
  {
    match BranchAt(e, line, s)
    case Backslash =>
    case Delimiter =>
    case _ =>
  }

  // ----- comments to the end of a line -------------------------------------------

  predicate IsBlank(ch: char) {
    ch as int == 32 || 9 <= ch as int <= 13
  }

  /** A comment that runs to the end of its line begins with `#`, or with `--` and a blank or nothing behind it. */
  lemma RemarkBegins(line: string, k: nat)
    requires k <= |line| && NUL !in line
    ensures var rest := line[k..];
            && (TrailingComment(line, k) <==> "#" <= rest || ("--" <= rest && |rest| > 2 && IsBlank(rest[2])))
            && (LineComment(line, k) <==> TrailingComment(line, k) || rest == "--")
  {
    var rest := line[k..];
    assert forall i | 0 <= i < |rest| :: At(line, k + i) == rest[i];
    assert "#" == ['#'] && "--" == ['-', '-'];
    assert |rest| >= 2 ==> rest[..2] == [rest[0], rest[1]];
    assert |rest| >= 1 ==> rest[..1] == [rest[0]];
    assert |rest| == 2 ==> rest == rest[..2];
  }

  // ----- quoted text -----------------------------------------------------------

  /** The text of a literal, without its quotes, as SQL defines it. */
  predicate Body(quote: char, noEscapes: bool, w: string) {
    if w == "" then true
    else if w[0] == '\\' && !noEscapes then
      if quote == '`' && (|w| == 1 || w[1] == '`') then |w| == 1
      else |w| >= 2 && Body(quote, noEscapes, w[2..])
    else w[0] != quote && Body(quote, noEscapes, w[1..])
  }

  predicate InLiteral(e: Client, line: string, s: Scan) {
    SoundScan(e, s) && s.c.quote != NUL && !Halted(line, s) && NUL !in line
  }

  /** Any way of evaluating a line to its end that proceeds by steps of the scanner. */
  ghost predicate Evaluates(e: Client, line: string, run: Scan -> Scan) {
    forall s {:trigger Step(e, line, s)} | !Halted(line, s) && ValidDelimiter(s.c.delimiter) ::
      run(s) == run(Step(e, line, s))
  }

  ghost function Evaluator(e: Client, line: string): Scan -> Scan {
    (s: Scan) => if ValidDelimiter(s.c.delimiter) then Run(e, line, s) else s
  }

  lemma RunEvaluates(e: Client, line: string)
    ensures Evaluates(e, line, Evaluator(e, line))
  {
  }

  lemma KeepInLiteral(e: Client, line: string, s: Scan)
    requires InLiteral(e, line, s)
    requires line[s.pos] == '\\' ==> s.c.noEscapes
    ensures Step(e, line, s) == s.(pos := s.pos + 1, out := s.out + [line[s.pos]],
                                   c := s.c.(quote := if line[s.pos] == s.c.quote then NUL else s.c.quote))
  {
  }

  lemma EscapeInLiteral(e: Client, line: string, s: Scan)
    requires InLiteral(e, line, s)
    requires line[s.pos] == '\\' && !s.c.noEscapes && s.pos + 1 < |line|
    ensures Step(e, line, s) ==
            if s.c.quote == '`' && line[s.pos + 1] == '`' then s.(pos := s.pos + 1, out := s.out + ['\\'])
            else s.(pos := s.pos + 2, out := s.out + ['\\', line[s.pos + 1]])
  {
  }

  function AfterLiteral(s: Scan, w: string): Scan {
    s.(pos := s.pos + |w| + 1, out := s.out + w + [s.c.quote], c := s.c.(quote := NUL))
  }

  /** How many characters of a literal's text one step of the scanner takes. */
  function Taken(noEscapes: bool, w: string): nat
    requires w != ""
  {
    if w[0] == '\\' && !noEscapes && |w| > 1 then 2 else 1
  }

  lemma LiteralStep(e: Client, line: string, s: Scan, w: string, run: Scan -> Scan)
    requires Evaluates(e, line, run) && InLiteral(e, line, s) && w != ""
    requires StartsAt(line, s.pos, w + [s.c.quote]) && Body(s.c.quote, s.c.noEscapes, w)
    ensures var k := Taken(s.c.noEscapes, w);
            && Body(s.c.quote, s.c.noEscapes, w[k..])
            && run(s) == run(s.(pos := s.pos + k, out := s.out + w[..k]))
  {
    var text := line[s.pos..s.pos + |w| + 1];
    assert text == w + [s.c.quote] && line[s.pos] == text[0] && line[s.pos + 1] == text[1];
    if w[0] == '\\' && !s.c.noEscapes {
      EscapeInLiteral(e, line, s);
    } else {
      KeepInLiteral(e, line, s);
    }
    assert w[..1] == [w[0]] && (|w| > 1 ==> w[..2] == [w[0], w[1]]);
  }

  lemma RestOfLiteral(line: string, s: Scan, w: string, k: nat)
    requires k <= |w| && StartsAt(line, s.pos, w + [s.c.quote])
    ensures StartsAt(line, s.pos + k, w[k..] + [s.c.quote])
    ensures AfterLiteral(s.(pos := s.pos + k, out := s.out + w[..k]), w[k..]) == AfterLiteral(s, w)
  {
    assert line[s.pos + k..s.pos + |w| + 1] == (w + [s.c.quote])[k..] == w[k..] + [s.c.quote];
    assert s.out + w[..k] + w[k..] + [s.c.quote] == s.out + w + [s.c.quote];
  }

  lemma CloseLiteral(e: Client, line: string, s: Scan, run: Scan -> Scan)
    requires Evaluates(e, line, run) && InLiteral(e, line, s) && line[s.pos] == s.c.quote
    ensures run(s) == run(AfterLiteral(s, ""))
  {
    KeepInLiteral(e, line, s);
    assert s.out + [s.c.quote] == s.out + "" + [s.c.quote];
  }

  /**
   Whatever a literal contains -- delimiters, comment marks, commands -- every
   character of it is kept in order, nothing is sent, and the literal ends where
   SQL says it ends.
   */
  lemma {:induction false} LiteralKept(e: Client, line: string, s: Scan, w: string, run: Scan -> Scan)
    requires Evaluates(e, line, run) && InLiteral(e, line, s)
    requires StartsAt(line, s.pos, w + [s.c.quote]) && Body(s.c.quote, s.c.noEscapes, w)
    ensures run(s) == run(AfterLiteral(s, w))
    decreases |w|
  {
    var q := s.c.quote;
    if w == "" {
      assert line[s.pos] == (w + [q])[0];
      CloseLiteral(e, line, s, run);
    } else {
      LiteralStep(e, line, s, w, run);
      var k := Taken(s.c.noEscapes, w);
      var t := s.(pos := s.pos + k, out := s.out + w[..k]);
      RestOfLiteral(line, s, w, k);
      LiteralKept(e, line, t, w[k..], run);
    }
  }

  /** A line that a literal runs past: it does not close the literal. */
  predicate OpenTail(quote: char, noEscapes: bool, w: string) {
    if w == "" then true
    else if w[0] == '\\' && !noEscapes then
      |w| == 1 || (!(quote == '`' && w[1] == '`') && OpenTail(quote, noEscapes, w[2..]))
    else w[0] != quote && OpenTail(quote, noEscapes, w[1..])
  }

  /** What is kept of such a line: all of it but a backslash that is its last character. */
  function TailKept(noEscapes: bool, w: string): string {
    if w == "" then ""
    else if w[0] == '\\' && !noEscapes then
      if |w| == 1 then "" else w[..2] + TailKept(noEscapes, w[2..])
    else w[..1] + TailKept(noEscapes, w[1..])
  }

  predicate EndsInBackslash(noEscapes: bool, w: string) {
    if w == "" then false
    else if w[0] == '\\' && !noEscapes then |w| == 1 || EndsInBackslash(noEscapes, w[2..])
    else EndsInBackslash(noEscapes, w[1..])
  }

  function AfterTail(s: Scan, w: string): Scan {
    s.(pos := s.pos + |w|, stop := EndsInBackslash(s.c.noEscapes, w), out := s.out + TailKept(s.c.noEscapes, w))
  }

  predicate InOpenTail(e: Client, line: string, s: Scan) {
    && SoundScan(e, s) && s.c.quote != NUL && s.pos <= |line| && !s.stop && NUL !in line
    && OpenTail(s.c.quote, s.c.noEscapes, line[s.pos..])
  }

  lemma TailStep(e: Client, line: string, s: Scan, run: Scan -> Scan)
    requires Evaluates(e, line, run) && InOpenTail(e, line, s) && s.pos < |line|
    ensures var w := line[s.pos..];
            var k := Taken(s.c.noEscapes, w);
            if w[0] == '\\' && !s.c.noEscapes && |w| == 1 then run(s) == run(s.(pos := |line|, stop := true))
            else run(s) == run(s.(pos := s.pos + k, out := s.out + w[..k]))
  {
    var w := line[s.pos..];
    var t := Step(e, line, s);
    if !(w[0] == '\\' && !s.c.noEscapes && |w| == 1) {
      if Taken(s.c.noEscapes, w) == 2 { EscapeInLiteral(e, line, s); } else { KeepInLiteral(e, line, s); }
      assert w[..1] == [w[0]] && (|w| > 1 ==> w[..2] == [w[0], w[1]]);
    }
  }

  lemma TailFurther(quote: char, noEscapes: bool, w: string)
    requires w != "" && OpenTail(quote, noEscapes, w) && !(w[0] == '\\' && !noEscapes && |w| == 1)
    ensures var k := Taken(noEscapes, w);
            && k <= |w| && OpenTail(quote, noEscapes, w[k..])
            && TailKept(noEscapes, w) == w[..k] + TailKept(noEscapes, w[k..])
            && EndsInBackslash(noEscapes, w) == EndsInBackslash(noEscapes, w[k..])
  {
  }

  lemma TailOver(noEscapes: bool)
    ensures TailKept(noEscapes, "") == "" && !EndsInBackslash(noEscapes, "")
    ensures !noEscapes ==> TailKept(noEscapes, ['\\']) == "" && EndsInBackslash(noEscapes, ['\\'])
  {
  }

  lemma {:induction false} TailRun(e: Client, line: string, s: Scan, run: Scan -> Scan)
    requires Evaluates(e, line, run) && InOpenTail(e, line, s)
    ensures run(s) == run(AfterTail(s, line[s.pos..]))
    decreases |line| - s.pos
  {
    hide Evaluates, OpenTail, TailKept, EndsInBackslash;
    var w := line[s.pos..];
    TailOver(s.c.noEscapes);
    assert s.out + "" == s.out;
    if w != "" {
      TailStep(e, line, s, run);
      if w[0] == '\\' && !s.c.noEscapes && |w| == 1 {
        assert w == ['\\'];
      } else {
        var k := Taken(s.c.noEscapes, w);
        var t := s.(pos := s.pos + k, out := s.out + w[..k]);
        assert line[t.pos..] == w[k..];
        TailFurther(s.c.quote, s.c.noEscapes, w);
        TailRun(e, line, t, run);
        Assoc(s.out, w[..k], TailKept(s.c.noEscapes, w[k..]));
      }
    }
  }

  lemma QuotedLine(e: Client, c: Carry, line: string)
    requires Sound(c) && c.quote != NUL && !c.quit
    requires NUL !in line && OpenTail(c.quote, c.noEscapes, line)
    ensures ReadInput(e, c, Line(line, false)) == c.(buffer := c.buffer + TailKept(c.noEscapes, line) + ['\n'])
  {
    RunEvaluates(e, line);
    assert line[0..] == line;
    TailRun(e, line, Begin(c), Evaluator(e, line));
    assert "" + TailKept(c.noEscapes, line) == TailKept(c.noEscapes, line);
  }

  /** The lines of a session that all stay inside the literal that is open. */
  predicate AllQuoted(c: Carry, inputs: seq<Input>) {
    forall i | i in inputs :: i.Line? && !i.truncated && NUL !in i.text && OpenTail(c.quote, c.noEscapes, i.text)
  }

  function TailsKept(c: Carry, inputs: seq<Input>): string
    requires AllQuoted(c, inputs)
  {
    if inputs == [] then ""
    else TailKept(c.noEscapes, inputs[0].text) + ['\n'] + TailsKept(c, inputs[1..])
  }

  /**
   A literal that spans lines: as long as no line closes it, every line joins the
   buffer with its newline, nothing is sent and no client command is run.
   */
  lemma {:induction false} LiteralAcrossLines(e: Client, c: Carry, inputs: seq<Input>)
    requires Sound(c) && c.quote != NUL && !c.quit && AllQuoted(c, inputs)
    ensures ReadAll(e, c, inputs) == c.(buffer := c.buffer + TailsKept(c, inputs))
    decreases |inputs|
  {
    hide ReadInput, OpenTail, TailKept;
    if inputs == [] {
      assert c.buffer + "" == c.buffer;
    } else {
      var text := inputs[0].text;
      assert inputs[0] == Line(text, false);
      QuotedLine(e, c, text);
      var d := c.(buffer := c.buffer + TailKept(c.noEscapes, text) + ['\n']);
      LiteralAcrossLines(e, d, inputs[1..]);
      SameTails(c, d, inputs[1..]);
      ThreeParts(c.buffer, TailKept(c.noEscapes, text), ['\n'], TailsKept(c, inputs[1..]));
    }
  }

  lemma ThreeParts(a: string, b: string, n: string, r: string)
    ensures a + b + n + r == a + (b + n + r)
  {
  }

  lemma SameTails(c: Carry, d: Carry, inputs: seq<Input>)
    requires AllQuoted(c, inputs) && d.quote == c.quote && d.noEscapes == c.noEscapes
    ensures TailsKept(c, inputs) == TailsKept(d, inputs)
  {
  }
}
