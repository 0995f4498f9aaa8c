/**
 What may stand on a line, item by item: plain text, literals, comments, the marks
 that begin and end hints and conditional comments, escapes, one-letter commands and
 delimiters.  The scanner has the effect of the items, one after the other, with and
 without --comments and whatever the server answers.
 */
module StatementItems {
  import opened Sequences
  import opened StatementScanner
  import opened StatementTheorems
  import opened StatementComments

  datatype Item =
    | Blank(ch: char)
    | Plain(text: string)
    | Literal(quote: char, body: string)
    | Comment(body: string)
    | Mark(kind: SpecialComment)
    | Unmark
    | Escape(ch: char)
    | Short(ch: char, args: string, rest: string)
    | Delimit(blanks: string, remark: string)

  // ----- keeping text -------------------------------------------------------------------------------

  /** A character outside comments: blanks in front of a statement are dropped, and a blank owed to a comment is paid. */
  function KeepChar(e: Client, s: Scan, ch: char): Scan {
    if !e.keepComments && IsSpace(ch) && s.out == "" && s.c.buffer == "" then s.(pos := s.pos + 1)
    else s.(pos := s.pos + 1, out := s.out + (if s.space && !IsSpace(ch) then [' ', ch] else [ch]), space := false)
  }

  function KeepText(e: Client, s: Scan, text: string): Scan
    decreases |text|
  {
    if text == "" then s else KeepText(e, KeepChar(e, s, text[0]), text[1..])
  }

  /** Outside literals and comments. */
  predicate Between(e: Client, line: string, s: Scan) {
    && SoundScan(e, s) && s.c.quote == NUL && !s.c.comment
    && !s.c.quit && !s.stop && NUL !in line && s.pos <= |line|
  }

  /**
   Nothing here is a backslash, a comment to the end of the line, or a mark of a special
   comment, nor, outside hints, a quote, the delimiter or a comment.
   */
  predicate CleanAt(line: string, k: nat, d: string, special: SpecialComment)
    requires k < |line|
  {
    && line[k] != '\\' && !LineComment(line, k) && !SpecialAt(line, k) && (special != NoSpecial ==> !StartsAt(line, k, "*/"))
    && (special != Hint ==> !IsQuote(line[k]) && !StartsAt(line, k, "/*") && !StartsAt(line, k, d))
  }

  predicate Clean(line: string, from: nat, to: nat, d: string, special: SpecialComment)
    requires to <= |line|
  {
    forall k | from <= k < to :: CleanAt(line, k, d, special)
  }

  lemma PlainStep(e: Client, line: string, s: Scan, run: Scan -> Scan)
    requires Evaluates(e, line, run) && Between(e, line, s)
    requires s.pos < |line| && CleanAt(line, s.pos, s.c.delimiter, s.special)
    ensures var t := KeepChar(e, s, line[s.pos]); run(s) == run(t) && Between(e, line, t)
  {
    OpenBytes(line, s.pos);
    CloseBytes(line, s.pos);
    SpecialBytes(line, s.pos);
    var t := Step(e, line, s);
  }

  /** A blank in front of a statement is dropped, even where the delimiter begins with it. */
  lemma BlankRuns(e: Client, line: string, s: Scan, run: Scan -> Scan)
    requires Evaluates(e, line, run) && Between(e, line, s) && s.pos < |line| && SkipsSpace(e, line, s)
    ensures var t := KeepChar(e, s, line[s.pos]); run(s) == run(t) && Between(e, line, t)
  {
    var t := Step(e, line, s);
  }

  /** Plain text is kept; inside a hint quotes, delimiters and comments are plain text too. */
  lemma {:induction false} PlainKept(e: Client, line: string, s: Scan, text: string, run: Scan -> Scan)
    requires Evaluates(e, line, run) && Between(e, line, s)
    requires StartsAt(line, s.pos, text) && Clean(line, s.pos, s.pos + |text|, s.c.delimiter, s.special)
    ensures var t := KeepText(e, s, text); run(s) == run(t) && Between(e, line, t)
    decreases |text|
  {
    hide Step, Evaluates, CleanAt;
    if text != "" {
      PlainStep(e, line, s, run);
      StartsFirst(line, s.pos, text);
      PlainKept(e, line, KeepChar(e, s, text[0]), text[1..], run);
    }
  }

  lemma StartsFirst(line: string, k: nat, text: string)
    requires StartsAt(line, k, text) && text != ""
    ensures k < |line| && line[k] == text[0] && StartsAt(line, k + 1, text[1..])
  {
    assert line[k] == line[k..k + |text|][0];
    assert line[k + 1..k + |text|] == line[k..k + |text|][1..];
  }

  lemma StartsSecond(line: string, k: nat, a: string, b: string)
    requires StartsAt(line, k, a + b)
    ensures StartsAt(line, k, a) && StartsAt(line, k + |a|, b)
  {
    var text := line[k..k + |a| + |b|];
    assert text[..|a|] == a && text[|a|..] == b;
    assert line[k..k + |a|] == text[..|a|] && line[k + |a|..k + |a| + |b|] == text[|a|..];
  }

  /** Behind the first character nothing is dropped or added. */
  lemma {:induction false} KeepRaw(e: Client, s: Scan, text: string)
    requires s.out != "" && !s.space
    ensures KeepText(e, s, text) == s.(pos := s.pos + |text|, out := s.out + text)
    decreases |text|
  {
    if text == "" {
      assert s.out + text == s.out;
    } else {
      var t := s.(pos := s.pos + 1, out := s.out + [text[0]]);
      assert KeepChar(e, s, text[0]) == t;
      KeepRaw(e, t, text[1..]);
      assert s.out + [text[0]] + text[1..] == s.out + text;
    }
  }

  /** What keeping text leaves alone. */
  lemma {:induction false} KeepSame(e: Client, s: Scan, text: string)
    ensures var t := KeepText(e, s, text); t.c == s.c && t.special == s.special && t.stop == s.stop && t.pos == s.pos + |text|
    decreases |text|
  {
    if text != "" { KeepSame(e, KeepChar(e, s, text[0]), text[1..]); }
  }

  // ----- literals -------------------------------------------------------------------------------------

  lemma OpenQuote(e: Client, line: string, s: Scan, run: Scan -> Scan)
    requires Evaluates(e, line, run) && Between(e, line, s)
    requires s.pos < |line| && IsQuote(line[s.pos]) && s.special != Hint && !AtDelimiter(line, s)
    ensures var t := KeepChar(e, s, line[s.pos]).(c := s.c.(quote := line[s.pos]));
            run(s) == run(t) && t.out != "" && !t.space && SoundScan(e, t)
  {
    var t := Step(e, line, s);
  }

  lemma LiteralIsKept(e: Client, line: string, s: Scan, q: char, body: string, run: Scan -> Scan)
    requires Evaluates(e, line, run) && Between(e, line, s)
    requires IsQuote(q) && StartsAt(line, s.pos, [q] + body + [q]) && Body(q, s.c.noEscapes, body)
    requires s.special != Hint && !AtDelimiter(line, s)
    ensures var t := KeepText(e, s, [q] + body + [q]); run(s) == run(t) && Between(e, line, t)
  {
    hide Step, Evaluates, Body, KeepText, KeepChar, StartsAt, SoundScan;
    Assoc([q], body, [q]);
    StartsSecond(line, s.pos, [q], body + [q]);
    StartsFirst(line, s.pos, [q]);
    StartsInside(line, s.pos + 1, body, q);
    OpenQuote(e, line, s, run);
    var k := KeepChar(e, s, q);
    CharSame(e, s, q);
    var t := k.(c := s.c.(quote := q));
    LiteralKept(e, line, t, body, run);
    KeepRaw(e, k, body + [q]);
    Assoc(k.out, body, [q]);
    KeepFirst(e, s, q, body + [q]);
    assert AfterLiteral(t, body) == KeepText(e, k, body + [q]);
    BetweenAgain(e, line, s, k, body + [q]);
  }

  lemma StartsInside(line: string, k: nat, body: string, q: char)
    requires StartsAt(line, k, body + [q])
    ensures k < |line| && k + |body| + 1 <= |line|
  {
  }

  lemma CharSame(e: Client, s: Scan, ch: char)
    ensures var t := KeepChar(e, s, ch); t.c == s.c && t.special == s.special && t.stop == s.stop && t.pos == s.pos + 1
  {
  }

  lemma BetweenAgain(e: Client, line: string, s: Scan, k: Scan, text: string)
    requires Between(e, line, s) && k.c == s.c && k.special == s.special && k.stop == s.stop && k.out != "" && k.pos + |text| <= |line|
    ensures Between(e, line, k.(pos := k.pos + |text|, out := k.out + text))
  {
  }

  lemma KeepFirst(e: Client, s: Scan, ch: char, text: string)
    ensures KeepText(e, s, [ch] + text) == KeepText(e, KeepChar(e, s, ch), text)
  {
    assert ([ch] + text)[1..] == text;
  }

  // ----- hints and conditional comments ------------------------------------------------------------------

  /** A hint or a conditional comment begins here, also inside another. */
  predicate MarkLaid(line: string, s: Scan, kind: SpecialComment) {
    SpecialAt(line, s.pos) && kind == (if StartsAt(line, s.pos, "/*!") then Conditional else Hint) && !AtDelimiter(line, s)
  }

  /** The slash that begins it; what follows is ordinary text of it. */
  lemma MarkRuns(e: Client, line: string, s: Scan, kind: SpecialComment, run: Scan -> Scan)
    requires Evaluates(e, line, run) && Between(e, line, s) && MarkLaid(line, s, kind)
    ensures var t := KeepChar(e, s, '/').(special := kind); run(s) == run(t) && Between(e, line, t)
  {
    SpecialBytes(line, s.pos);
    StartsThree(line, s.pos, '/', '*', '!');
    assert "/*!" == ['/', '*', '!'];
    var t := Step(e, line, s);
  }

  predicate UnmarkLaid(line: string, s: Scan) {
    s.special != NoSpecial && StartsAt(line, s.pos, "*/") && !AtDelimiter(line, s)
  }

  /** The star that ends it. */
  lemma UnmarkRuns(e: Client, line: string, s: Scan, run: Scan -> Scan)
    requires Evaluates(e, line, run) && Between(e, line, s) && UnmarkLaid(line, s)
    ensures var t := KeepChar(e, s, '*').(special := NoSpecial); run(s) == run(t) && Between(e, line, t)
  {
    CloseBytes(line, s.pos);
    var t := Step(e, line, s);
  }

  // ----- comments ---------------------------------------------------------------------------------------------

  predicate Opens(special: SpecialComment, body: string) {
    At(body, 0) == '/' && At(body, 1) == '*' && At(body, 2) != '!' && At(body, 2) != '+' && special != Hint
  }

  predicate Closes(special: SpecialComment, body: string) {
    special == NoSpecial && At(body, 0) == '*' && At(body, 1) == '/'
  }

  function SpecialIn(special: SpecialComment, body: string): SpecialComment {
    if At(body, 0) == '/' && At(body, 1) == '*' then
      if At(body, 2) == '!' then Conditional else if At(body, 2) == '+' then Hint else special
    else if At(body, 0) == '*' && At(body, 1) == '/' then NoSpecial
    else special
  }

  function BodyTaken(special: SpecialComment, body: string): nat {
    if Opens(special, body) then 2 else 1
  }

  /** The first character of the text of a comment, or a mark that opens one again. */
  function BodyStep(e: Client, s: Scan, body: string): Scan
    requires body != ""
  {
    if Opens(s.special, body) then StepOpen(e, s)
    else (if e.keepComments then KeepChar(e, s, body[0]) else s.(pos := s.pos + 1)).(special := SpecialIn(s.special, body))
  }

  /** Through the text of a comment. */
  function Within(e: Client, s: Scan, body: string): Scan
    decreases |body|
  {
    if body == "" then s else Within(e, BodyStep(e, s, body), body[BodyTaken(s.special, body)..])
  }

  /** The special comment that the scanner believes to be in behind the text. */
  function SpecialBehind(special: SpecialComment, body: string): SpecialComment
    decreases |body|
  {
    if body == "" then special else SpecialBehind(SpecialIn(special, body), body[BodyTaken(special, body)..])
  }

  /** Nothing in the text closes the comment: a mark that ends a special comment does not. */
  predicate StaysIn(special: SpecialComment, body: string)
    decreases |body|
  {
    body == "" || (!Closes(special, body) && StaysIn(SpecialIn(special, body), body[BodyTaken(special, body)..]))
  }

  predicate CommentScan(e: Client, line: string, s: Scan) {
    SoundScan(e, s) && s.c.comment && !s.c.quit && !s.stop && NUL !in line && s.pos <= |line|
  }

  /** The text of a comment, up to the mark that closes it or to the end of the line. */
  predicate BodyLaid(line: string, pos: nat, special: SpecialComment, body: string) {
    var end := pos + |body|;
    && StartsAt(line, pos, body) && StaysIn(special, body)
    && (end == |line| || (StartsAt(line, end, "*/") && SpecialBehind(special, body) == NoSpecial && !EndsInSlash(body)))
  }

  predicate EndsInSlash(body: string) {
    body != "" && body[|body| - 1] == '/'
  }

  /** The text alone tells what the line tells. */
  lemma SameLook(line: string, s: Scan, body: string)
    requires BodyLaid(line, s.pos, s.special, body) && body != "" && s.c.quote == NUL
    ensures s.pos < |line| && body[0] == line[s.pos] && !AtClose(line, s)
    ensures AtOpen(line, s) <==> Opens(s.special, body)
    ensures !Opens(s.special, body) ==> SpecialAfter(line, s) == SpecialIn(s.special, body)
    ensures var n := BodyTaken(s.special, body);
            n <= |body| && BodyLaid(line, s.pos + n, SpecialIn(s.special, body), body[n..])
  {
    hide StartsAt, StaysIn, SpecialBehind;
    BytesOfBody(line, s.pos, s.special, body);
    NotClosed(s.special, body);
    RestLaid(line, s.pos, s.special, body);
  }

  lemma NotClosed(special: SpecialComment, body: string)
    requires StaysIn(special, body) && body != ""
    ensures !Closes(special, body)
  {
  }

  /** What the first three characters of the text tell about the line. */
  lemma BytesOfBody(line: string, pos: nat, special: SpecialComment, body: string)
    requires BodyLaid(line, pos, special, body) && body != ""
    ensures pos < |line| && body[0] == line[pos]
    ensures body[0] == '/' ==> (At(body, 1) == '*' <==> At(line, pos + 1) == '*')
    ensures body[0] == '*' ==> (At(body, 1) == '/' <==> At(line, pos + 1) == '/')
    ensures At(body, 1) == '*' ==> (At(body, 2) == '!' <==> At(line, pos + 2) == '!') && (At(body, 2) == '+' <==> At(line, pos + 2) == '+')
  {
    hide StaysIn, SpecialBehind;
    var end := pos + |body|;
    StartsFirst(line, pos, body);
    CloseBytes(line, end);
    SameBytes(line, pos, body);
  }

  lemma RestLaid(line: string, pos: nat, special: SpecialComment, body: string)
    requires BodyLaid(line, pos, special, body) && body != ""
    ensures var n := BodyTaken(special, body); n <= |body| && BodyLaid(line, pos + n, SpecialIn(special, body), body[n..])
  {
    hide StartsAt;
    RestStarts(line, pos, body, BodyTaken(special, body));
  }

  lemma SameBytes(line: string, pos: nat, body: string)
    requires StartsAt(line, pos, body)
    ensures forall k | 0 <= k < |body| :: body[k] == line[pos + k]
  {
    forall k | 0 <= k < |body| ensures body[k] == line[pos + k] { assert line[pos..pos + |body|][k] == line[pos + k]; }
  }

  lemma RestStarts(line: string, pos: nat, body: string, n: nat)
    requires StartsAt(line, pos, body) && n <= |body|
    ensures StartsAt(line, pos + n, body[n..]) && (n < |body| ==> body[n..][|body| - n - 1] == body[|body| - 1])
  {
    assert body == body[..n] + body[n..];
    StartsSecond(line, pos, body[..n], body[n..]);
  }

  lemma BodyStepRuns(e: Client, line: string, s: Scan, body: string, run: Scan -> Scan)
    requires Evaluates(e, line, run) && CommentScan(e, line, s) && BodyLaid(line, s.pos, s.special, body) && body != ""
    ensures var t := BodyStep(e, s, body);
            && run(s) == run(t) && CommentScan(e, line, t) && t.pos == s.pos + BodyTaken(s.special, body) <= s.pos + |body|
            && t.c == s.c.(buffer := t.c.buffer) && t.special == SpecialIn(s.special, body)
  {
    hide Step, BodyLaid;
    SameLook(line, s, body);
    CommentBranch(e, line, s);
    assert run(s) == run(Step(e, line, s));
    assert AtOpen(line, s) ==> Step(e, line, s) == BodyStep(e, s, body);
    assert !AtOpen(line, s) ==> Step(e, line, s) == StepKeep(e, line, s) == BodyStep(e, s, body);
  }

  lemma {:induction false} WithinRuns(e: Client, line: string, s: Scan, body: string, run: Scan -> Scan)
    requires Evaluates(e, line, run) && CommentScan(e, line, s) && BodyLaid(line, s.pos, s.special, body)
    ensures var t := Within(e, s, body);
            && run(s) == run(t) && CommentScan(e, line, t) && t.pos == s.pos + |body| && t.c == s.c.(buffer := t.c.buffer)
            && t.special == SpecialBehind(s.special, body)
    decreases |body|
  {
    hide Step, Evaluates, BodyStep, BodyLaid;
    if body != "" {
      BodyStepRuns(e, line, s, body, run);
      SameLook(line, s, body);
      var n := BodyTaken(s.special, body);
      WithinRuns(e, line, BodyStep(e, s, body), body[n..], run);
    }
  }

  function CommentSource(body: string): string {
    "/*" + body + "*/"
  }

  predicate CommentLaid(line: string, s: Scan, body: string) {
    && s.special != Hint && StartsAt(line, s.pos, CommentSource(body)) && !AtDelimiter(line, s) && !SpecialAt(line, s.pos)
    && BodyLaid(line, s.pos + 2, s.special, body)
  }

  function AfterComment(e: Client, s: Scan, body: string): Scan {
    StepClose(e, Within(e, StepOpen(e, s), body))
  }

  lemma OpenRuns(e: Client, line: string, s: Scan, run: Scan -> Scan)
    requires Evaluates(e, line, run) && Between(e, line, s)
    requires StartsAt(line, s.pos, "/*") && s.special != Hint && !AtDelimiter(line, s) && !SpecialAt(line, s.pos)
    ensures run(s) == run(StepOpen(e, s)) && CommentScan(e, line, StepOpen(e, s))
  {
    OpenBytes(line, s.pos);
    SpecialBytes(line, s.pos);
    var t := Step(e, line, s);
  }

  lemma CloseRuns(e: Client, line: string, s: Scan, run: Scan -> Scan)
    requires Evaluates(e, line, run) && CommentScan(e, line, s) && s.special == NoSpecial && StartsAt(line, s.pos, "*/")
    ensures run(s) == run(StepClose(e, s)) && Between(e, line, StepClose(e, s))
  {
    CloseBytes(line, s.pos);
    CommentBranch(e, line, s);
  }

  /** A comment ends at the first mark that the scanner does not take for another's. */
  lemma CommentPasses(e: Client, line: string, s: Scan, body: string, run: Scan -> Scan)
    requires Evaluates(e, line, run) && Between(e, line, s) && CommentLaid(line, s, body)
    ensures var t := AfterComment(e, s, body); run(s) == run(t) && Between(e, line, t) && t.pos == s.pos + |body| + 4
  {
    hide Step, Evaluates, Within, StaysIn, SpecialAt, Between, CommentScan;
    assert CommentSource(body) == "/*" + (body + "*/");
    StartsSecond(line, s.pos, "/*", body + "*/");
    OpenRuns(e, line, s, run);
    var t := StepOpen(e, s);
    WithinRuns(e, line, t, body, run);
    StartsSecond(line, s.pos + 2, body, "*/");
    CloseRuns(e, line, Within(e, t, body), run);
  }

  // ----- escapes and one-letter commands -------------------------------------------------------------------------

  predicate EscapeLaid(e: Client, line: string, pos: nat, ch: char) {
    pos + 1 < |line| && line[pos] == '\\' && line[pos + 1] == ch && (ch == 'N' || e.short(ch).None?)
  }

  function AfterEscape(e: Client, s: Scan, ch: char): Scan {
    if ch != 'N' && e.errorsAreFatal then s.(c := s.c.(quit := true)) else s.(out := s.out + ['\\', ch], pos := s.pos + 2)
  }

  /** Either it ended the session, or the scan is between two items again. */
  predicate Goes(e: Client, line: string, s: Scan) {
    Between(e, line, s) || (s.c.quit && ValidDelimiter(s.c.delimiter))
  }

  lemma EscapeRuns(e: Client, line: string, s: Scan, ch: char, run: Scan -> Scan)
    requires Evaluates(e, line, run) && Between(e, line, s) && EscapeLaid(e, line, s.pos, ch)
    ensures run(s) == run(AfterEscape(e, s, ch)) && Goes(e, line, AfterEscape(e, s, ch))
  {
    var t := Step(e, line, s);
  }

  predicate ShortLaid(e: Client, line: string, s: Scan, ch: char, args: string, rest: string)
    requires s.pos <= |line|
  {
    && s.pos + 1 < |line| && line[s.pos] == '\\' && line[s.pos + 1] == ch && ch != 'N' && e.short(ch).Some? && rest == line[s.pos..]
    && var c := Perform(e, Flush(s).c, e.short(ch).value, rest);
       c.quit || AfterCommand(line, s.pos + 2, e.short(ch).value, s.special, c.delimiter) == s.pos + 2 + |args|
  }

  function AfterShort(e: Client, s: Scan, ch: char, args: string, rest: string): Scan
    requires e.short(ch).Some?
  {
    var f := Flush(s);
    var c := Perform(e, f.c, e.short(ch).value, rest);
    if c.quit then f.(c := c) else f.(c := c, pos := s.pos + 2 + |args|)
  }

  lemma ShortRuns(e: Client, line: string, s: Scan, ch: char, args: string, rest: string, run: Scan -> Scan)
    requires Evaluates(e, line, run) && Between(e, line, s) && ShortLaid(e, line, s, ch, args, rest)
    ensures var t := AfterShort(e, s, ch, args, rest); run(s) == run(t) && Goes(e, line, t)
  {
    hide Perform, AfterCommand;
    var t := Step(e, line, s);
  }

  // ----- the delimiter ------------------------------------------------------------------------------------------------

  predicate DelimitLaid(e: Client, line: string, s: Scan, blanks: string, remark: string)
    requires s.pos < |line|
  {
    && s.special != Hint && StartsAt(line, s.pos, s.c.delimiter) && !SkipsSpace(e, line, s)
    && var p := s.pos + |s.c.delimiter|;
       var q := if e.keepComments then SkipSpaces(line, p) else p;
       blanks == line[p..q] && remark == if e.keepComments && TrailingComment(line, q) then line[q..] else ""
  }

  /** The statement is complete, with the blanks and the comment behind its delimiter when comments are kept. */
  function AfterDelimit(e: Client, s: Scan, blanks: string, remark: string): Scan {
    s.(pos := s.pos + |s.c.delimiter| + |blanks| + |remark|, out := "",
       c := Complete(e, s.c.(buffer := s.c.buffer + s.out + blanks + remark)))
  }

  lemma DelimitRuns(e: Client, line: string, s: Scan, blanks: string, remark: string, run: Scan -> Scan)
    requires Evaluates(e, line, run) && Between(e, line, s) && s.pos < |line| && DelimitLaid(e, line, s, blanks, remark)
    ensures var t := AfterDelimit(e, s, blanks, remark); run(s) == run(t) && Goes(e, line, t)
  {
    hide Complete;
    var d := s.c.delimiter;
    assert line[s.pos] == line[s.pos..s.pos + |d|][0] == d[0];
    assert s.c.buffer + (s.out + blanks) + remark == s.c.buffer + s.out + blanks + remark;
    assert s.c.buffer + (s.out + blanks) + "" == s.c.buffer + (s.out + blanks);
    var t := Step(e, line, s);
    assert t == StepDelimiter(e, line, s);
  }

  // ----- items ----------------------------------------------------------------------------------------------------------

  predicate ItemLaid(e: Client, line: string, s: Scan, item: Item)
    requires s.pos <= |line|
  {
    match item
    case Blank(ch) => s.pos < |line| && line[s.pos] == ch && SkipsSpace(e, line, s)
    case Plain(text) => StartsAt(line, s.pos, text) && Clean(line, s.pos, s.pos + |text|, s.c.delimiter, s.special)
    case Literal(q, body) =>
      && IsQuote(q) && s.special != Hint && StartsAt(line, s.pos, [q] + body + [q]) && Body(q, s.c.noEscapes, body)
      && !AtDelimiter(line, s)
    case Comment(body) => CommentLaid(line, s, body)
    case Mark(kind) => MarkLaid(line, s, kind)
    case Unmark => UnmarkLaid(line, s)
    case Escape(ch) => EscapeLaid(e, line, s.pos, ch)
    case Short(ch, args, rest) => ShortLaid(e, line, s, ch, args, rest)
    case Delimit(blanks, remark) => s.pos < |line| && DelimitLaid(e, line, s, blanks, remark)
  }

  /** What an item does, wherever it stands. */
  function ItemEffect(e: Client, s: Scan, item: Item): Scan {
    match item
    case Blank(ch) => KeepChar(e, s, ch)
    case Plain(text) => KeepText(e, s, text)
    case Literal(q, body) => KeepText(e, s, [q] + body + [q])
    case Comment(body) => AfterComment(e, s, body)
    case Mark(kind) => KeepChar(e, s, '/').(special := kind)
    case Unmark => KeepChar(e, s, '*').(special := NoSpecial)
    case Escape(ch) => AfterEscape(e, s, ch)
    case Short(ch, args, rest) => if e.short(ch).None? then s else AfterShort(e, s, ch, args, rest)
    case Delimit(blanks, remark) => AfterDelimit(e, s, blanks, remark)
  }

  lemma ItemRuns(e: Client, line: string, s: Scan, item: Item, run: Scan -> Scan)
    requires Evaluates(e, line, run) && Between(e, line, s) && ItemLaid(e, line, s, item)
    ensures run(s) == run(ItemEffect(e, s, item)) && Goes(e, line, ItemEffect(e, s, item))
  {
    hide Evaluates, Clean, Body, CommentLaid, MarkLaid, UnmarkLaid, EscapeLaid, ShortLaid, DelimitLaid, SkipsSpace;
    hide KeepText, KeepChar, AfterComment, AfterEscape, AfterShort, AfterDelimit;
    match item
    case Blank(ch) => BlankRuns(e, line, s, run);
    case Plain(text) => PlainKept(e, line, s, text, run);
    case Literal(q, body) => LiteralIsKept(e, line, s, q, body, run);
    case Comment(body) => CommentPasses(e, line, s, body, run);
    case Mark(kind) => MarkRuns(e, line, s, kind, run);
    case Unmark => UnmarkRuns(e, line, s, run);
    case Escape(ch) => EscapeRuns(e, line, s, ch, run);
    case Short(ch, args, rest) => ShortRuns(e, line, s, ch, args, rest, run);
    case Delimit(blanks, remark) => DelimitRuns(e, line, s, blanks, remark, run);
  }

  /** The items stand one after another, as long as the session goes on. */
  predicate Laid(e: Client, line: string, s: Scan, items: seq<Item>)
    decreases |items|
  {
    items == [] || s.c.quit ||
    (s.pos <= |line| && ItemLaid(e, line, s, items[0]) && Laid(e, line, ItemEffect(e, s, items[0]), items[1..]))
  }

  function ItemsEffect(e: Client, s: Scan, items: seq<Item>): Scan
    decreases |items|
  {
    if items == [] || s.c.quit then s else ItemsEffect(e, ItemEffect(e, s, items[0]), items[1..])
  }

  /** The scanner has the effect of the items, one after the other. */
  lemma {:induction false} ItemsRun(e: Client, line: string, s: Scan, items: seq<Item>, run: Scan -> Scan)
    requires Evaluates(e, line, run) && Goes(e, line, s) && Laid(e, line, s, items)
    ensures var t := ItemsEffect(e, s, items); run(s) == run(t) && Goes(e, line, t)
    decreases |items|
  {
    hide Evaluates, ItemLaid, ItemEffect;
    if items != [] && !s.c.quit {
      ItemRuns(e, line, s, items[0], run);
      ItemsRun(e, line, ItemEffect(e, s, items[0]), items[1..], run);
    }
  }

  // ----- a comment inside a conditional comment ---------------------------------------------------------------------

  const INSIDE := "/*! /* b */"

  lemma InsideBytes()
    ensures SpecialAt(INSIDE, 0) && StartsAt(INSIDE, 0, "/*!") && FirstClose(INSIDE, 6, 9)
    ensures StartsAt(INSIDE, 1, "*! ") && StartsAt(INSIDE, 4, "/*") && !SpecialAt(INSIDE, 4)
    ensures !StartsAt(INSIDE, 0, ";") && !StartsAt(INSIDE, 4, ";")
  {
    StartsThree(INSIDE, 0, '/', '*', '!');
    StartsThree(INSIDE, 1, '*', '!', ' ');
    assert "/*!" == ['/', '*', '!'] && "*! " == ['*', '!', ' '];
    forall k | 0 <= k < 11 ensures StartsAt(INSIDE, k, ";") ==> INSIDE[k] == ';' { assert INSIDE[k..k + 1] == [INSIDE[k]]; }
    forall k | 6 <= k < 9 ensures !StartsAt(INSIDE, k, "*/") { CloseBytes(INSIDE, k); }
    CloseBytes(INSIDE, 9);
    OpenBytes(INSIDE, 4);
    SpecialBytes(INSIDE, 4);
  }

  lemma InsideClean()
    ensures Clean(INSIDE, 1, 4, ";", Conditional)
  {
    hide StartsAt, SpecialAt;
    forall k | 1 <= k < 4 ensures CleanAt(INSIDE, k, ";", Conditional) {
      assert !StartsAt(INSIDE, k, ";") by { InsideNoDelimiter(k); }
      CloseBytes(INSIDE, k);
      OpenBytes(INSIDE, k);
      SpecialBytes(INSIDE, k);
    }
  }

  lemma InsideNoDelimiter(k: nat)
    requires k < |INSIDE|
    ensures !StartsAt(INSIDE, k, ";")
  {
    assert INSIDE[k..k + 1] == [INSIDE[k]];
  }

  /** A comment inside a conditional comment loses its closing mark to it. */
  lemma InsideKeepsOpen(e: Client, c: Carry, truncated: bool)
    requires Fresh(c)
    ensures AddLine(e, c, INSIDE, truncated).comment
  {
    hide Run, Evaluates, StartsAt, SpecialAt, Clean, Step, FirstClose, KeepText, KeepChar;
    var run, s := Evaluator(e, INSIDE), Begin(c);
    RunEvaluates(e, INSIDE);
    InsideBytes();
    InsideClean();
    MarkRuns(e, INSIDE, s, Conditional, run);
    CharSame(e, s, '/');
    var t := KeepChar(e, s, '/').(special := Conditional);
    PlainKept(e, INSIDE, t, "*! ", run);
    KeepSame(e, t, "*! ");
    var u := KeepText(e, t, "*! ");
    OpenRuns(e, INSIDE, u, run);
    StaysOpen(e, INSIDE, StepOpen(e, u), 9, truncated);
  }
}
