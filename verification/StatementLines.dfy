/**
 Every line is made of items.  Wherever a literal, a comment or the line itself
 ends, and whatever stands on it, there is a description of it as a row; so the
 effects that the rows are given are those of every session.
 */
module StatementLines {
  import opened StatementScanner
  import opened StatementTheorems
  import opened StatementComments
  import opened StatementItems
  import opened StatementRows

  // ----- where a literal ends ------------------------------------------------------------------------

  /** The length of the text of the literal, up to its closing quote or to the end of the line. */
  function LiteralLength(q: char, noEscapes: bool, w: string): (n: nat)
    ensures n <= |w|
    decreases |w|
  {
    if w == "" then 0
    else if w[0] == '\\' && !noEscapes then
      if |w| == 1 || (q == '`' && w[1] == '`') then 1 else 2 + LiteralLength(q, noEscapes, w[2..])
    else if w[0] == q then 0
    else 1 + LiteralLength(q, noEscapes, w[1..])
  }

  lemma {:induction false} LiteralEnds(q: char, noEscapes: bool, w: string)
    requires IsQuote(q)
    ensures var n := LiteralLength(q, noEscapes, w);
            if n == |w| then OpenTail(q, noEscapes, w) else w[n] == q && Body(q, noEscapes, w[..n])
    decreases |w|
  {
    if w != "" {
      var n := LiteralLength(q, noEscapes, w);
      if w[0] == '\\' && !noEscapes {
        if |w| > 1 && !(q == '`' && w[1] == '`') {
          LiteralEnds(q, noEscapes, w[2..]);
          assert n < |w| ==> w[..n][2..] == w[2..][..n - 2];
        }
      } else if w[0] != q {
        LiteralEnds(q, noEscapes, w[1..]);
        assert n < |w| ==> w[..n][1..] == w[1..][..n - 1];
      }
    }
  }

  // ----- where a comment ends ---------------------------------------------------------------------------

  /** The length of the text of the comment, up to the mark that closes it or to the end of the line. */
  function CommentLength(special: SpecialComment, w: string): (n: nat)
    ensures n <= |w|
    decreases |w|
  {
    if w == "" || Closes(special, w) then 0
    else BodyTaken(special, w) + CommentLength(SpecialIn(special, w), w[BodyTaken(special, w)..])
  }

  /** The text begins like the line. */
  lemma SameStart(special: SpecialComment, w: string, n: nat)
    requires 0 < n <= |w| && !Closes(special, w) && BodyTaken(special, w) <= n
    requires n < |w| ==> At(w, n) == '*' && At(w, n + 1) == '/' && (n == 1 ==> SpecialIn(special, w) == NoSpecial)
    ensures Opens(special, w[..n]) <==> Opens(special, w)
    ensures SpecialIn(special, w[..n]) == SpecialIn(special, w) && !Closes(special, w[..n])
    ensures n == 1 && n < |w| ==> w[0] != '/'
  {
    assert n == |w| ==> w[..n] == w;
  }

  lemma BodyBegins(special: SpecialComment, body: string)
    requires body != ""
    ensures var rest, next := body[BodyTaken(special, body)..], SpecialIn(special, body);
            && (StaysIn(special, body) <==> !Closes(special, body) && StaysIn(next, rest))
            && SpecialBehind(special, body) == SpecialBehind(next, rest)
  {
  }

  lemma LengthBegins(special: SpecialComment, w: string)
    ensures w == "" || Closes(special, w) ==> CommentLength(special, w) == 0
    ensures w != "" && !Closes(special, w) ==>
              var k := BodyTaken(special, w); CommentLength(special, w) == k + CommentLength(SpecialIn(special, w), w[k..])
    ensures StaysIn(special, "") && SpecialBehind(special, "") == special
  {
  }

  lemma {:induction false} CommentEnds(special: SpecialComment, w: string)
    ensures var n := CommentLength(special, w);
            && StaysIn(special, w[..n])
            && (n < |w| ==> StartsAt(w, n, "*/") && SpecialBehind(special, w[..n]) == NoSpecial && !EndsInSlash(w[..n]))
    decreases |w|
  {
    hide StartsAt, StaysIn, SpecialBehind, CommentLength;
    var n := CommentLength(special, w);
    CloseBytes(w, n);
    LengthBegins(special, w);
    if w != "" && !Closes(special, w) {
      var k, next := BodyTaken(special, w), SpecialIn(special, w);
      CommentEnds(next, w[k..]);
      CloseBytes(w[k..], n - k);
      assert w[..n][k..] == w[k..][..n - k];
      LengthBegins(next, w[k..]);
      SameStart(special, w, n);
      BodyBegins(special, w[..n]);
    } else {
      assert w[..n] == "";
    }
  }

  lemma RestOf(line: string, pos: nat, n: nat)
    requires pos + n <= |line|
    ensures StartsAt(line, pos, line[pos..][..n])
    ensures forall d: string :: StartsAt(line[pos..], n, d) ==> StartsAt(line, pos + n, d)
  {
    assert line[pos..][..n] == line[pos..pos + n];
    forall d: string | StartsAt(line[pos..], n, d) ensures StartsAt(line, pos + n, d) {
      assert line[pos..][n..n + |d|] == line[pos + n..pos + n + |d|];
    }
  }

  /** The text of a comment, from any place of a line. */
  lemma BodyThere(line: string, pos: nat, special: SpecialComment)
    requires pos <= |line|
    ensures var n := CommentLength(special, line[pos..]); BodyLaid(line, pos, special, line[pos..][..n])
    ensures var n := CommentLength(special, line[pos..]); pos + n < |line| ==> StartsAt(line, pos + n, "*/")
  {
    hide StartsAt, StaysIn, SpecialBehind, EndsInSlash;
    var n := CommentLength(special, line[pos..]);
    CommentEnds(special, line[pos..]);
    RestOf(line, pos, n);
  }

  lemma Together(line: string, pos: nat, a: string, b: string)
    requires StartsAt(line, pos, a) && StartsAt(line, pos + |a|, b)
    ensures StartsAt(line, pos, a + b)
  {
    assert line[pos..pos + |a| + |b|] == line[pos..pos + |a|] + line[pos + |a|..pos + |a| + |b|];
  }

  // ----- what stands at a place ---------------------------------------------------------------------------

  /** The item is there and takes the scan further, or it ends the session. */
  predicate There(e: Client, line: string, s: Scan, item: Item)
    requires s.pos <= |line|
  {
    ItemLaid(e, line, s, item) && var t := ItemEffect(e, s, item); t.c.quit || t.pos > s.pos
  }

  /** An item stands here, or the line ends here in this way. */
  ghost predicate Known(e: Client, line: string, s: Scan)
    requires s.pos <= |line|
  {
    (exists item :: There(e, line, s, item)) || (exists end :: EndingLaid(line, s, end))
  }

  predicate Somewhere(e: Client, line: string, s: Scan) {
    Between(e, line, s) && s.pos < |line| && !SkipsSpace(e, line, s)
  }

  lemma BackslashKnown(e: Client, line: string, s: Scan)
    requires Somewhere(e, line, s) && line[s.pos] == '\\'
    ensures Known(e, line, s)
  {
    hide Perform, AfterCommand;
    if s.pos + 1 == |line| {
      assert EndingLaid(line, s, Dangling);
    } else {
      var ch := line[s.pos + 1];
      if ch == 'N' || e.short(ch).None? {
        assert There(e, line, s, Escape(ch));
      } else {
        var rest := line[s.pos..];
        var c := Perform(e, Flush(s).c, e.short(ch).value, rest);
        var to := AfterCommand(line, s.pos + 2, e.short(ch).value, s.special, c.delimiter);
        assert There(e, line, s, Short(ch, line[s.pos + 2..to], rest));
      }
    }
  }

  lemma DelimiterKnown(e: Client, line: string, s: Scan)
    requires Somewhere(e, line, s) && AtDelimiter(line, s)
    ensures Known(e, line, s)
  {
    hide Complete;
    var p := s.pos + |s.c.delimiter|;
    var q := if e.keepComments then SkipSpaces(line, p) else p;
    var remark := if e.keepComments && TrailingComment(line, q) then line[q..] else "";
    assert There(e, line, s, Delimit(line[p..q], remark));
  }

  lemma QuoteKnown(e: Client, line: string, s: Scan)
    requires Somewhere(e, line, s) && IsQuote(line[s.pos]) && s.special != Hint && !AtDelimiter(line, s)
    ensures Known(e, line, s)
  {
    hide OpenTail, Body, LiteralLength, KeepText;
    var q, w := line[s.pos], line[s.pos + 1..];
    var n := LiteralLength(q, s.c.noEscapes, w);
    LiteralEnds(q, s.c.noEscapes, w);
    if n == |w| {
      assert line[s.pos..] == [q] + w;
      assert EndingLaid(line, s, Opening(q, w));
    } else {
      var text := [q] + w[..n] + [q];
      assert line[s.pos + 1..s.pos + 1 + n] == w[..n] && line[s.pos + 1 + n] == w[n];
      assert line[s.pos..s.pos + n + 2] == [line[s.pos]] + line[s.pos + 1..s.pos + 1 + n] + [line[s.pos + 1 + n]];
      KeepSame(e, s, text);
      assert There(e, line, s, Literal(q, w[..n]));
    }
  }

  lemma CommentKnown(e: Client, line: string, s: Scan)
    requires Somewhere(e, line, s) && StartsAt(line, s.pos, "/*") && !SpecialAt(line, s.pos) && s.special != Hint && !AtDelimiter(line, s)
    ensures Known(e, line, s)
  {
    hide SpecialAt, BodyLaid, AtDelimiter, CommentLength, Between, AfterComment, Within, SoundScan, StaysIn;
    var rest := line[s.pos + 2..];
    var n := CommentLength(s.special, rest);
    BodyThere(line, s.pos + 2, s.special);
    var body := rest[..n];
    if n == |rest| {
      assert rest[..n] == rest;
      assert line[s.pos..] == line[s.pos..s.pos + 2] + rest;
      assert EndingLaid(line, s, Unclosed(body));
    } else {
      RestOf(line, s.pos + 2, n);
      Together(line, s.pos, "/*", body);
      Together(line, s.pos, "/*" + body, "*/");
      RunEvaluates(e, line);
      CommentPasses(e, line, s, body, Evaluator(e, line));
      assert There(e, line, s, Comment(body));
    }
  }

  lemma MarkKnown(e: Client, line: string, s: Scan)
    requires Somewhere(e, line, s) && SpecialAt(line, s.pos) && !AtDelimiter(line, s)
    ensures Known(e, line, s)
  {
    assert There(e, line, s, Mark(if StartsAt(line, s.pos, "/*!") then Conditional else Hint));
  }

  lemma UnmarkKnown(e: Client, line: string, s: Scan)
    requires Somewhere(e, line, s) && UnmarkLaid(line, s)
    ensures Known(e, line, s)
  {
    assert There(e, line, s, Unmark);
  }

  lemma PlainKnown(e: Client, line: string, s: Scan)
    requires Somewhere(e, line, s) && CleanAt(line, s.pos, s.c.delimiter, s.special)
    ensures Known(e, line, s)
  {
    hide CleanAt;
    var text := [line[s.pos]];
    assert line[s.pos..s.pos + 1] == text;
    KeepSame(e, s, text);
    assert There(e, line, s, Plain(text));
  }

  lemma RemarkKnown(e: Client, line: string, s: Scan)
    requires Somewhere(e, line, s) && LineComment(line, s.pos) && !AtDelimiter(line, s)
    ensures Known(e, line, s)
  {
    assert EndingLaid(line, s, Remark(line[s.pos..]));
  }

  lemma EndKnown(e: Client, line: string, s: Scan)
    requires s.pos == |line|
    ensures Known(e, line, s)
  {
    assert EndingLaid(line, s, Plainly);
  }

  lemma BlankKnown(e: Client, line: string, s: Scan)
    requires Between(e, line, s) && s.pos < |line| && SkipsSpace(e, line, s)
    ensures Known(e, line, s)
  {
    assert There(e, line, s, Blank(line[s.pos]));
  }

  /** Outside literals and comments, whatever comes next is an item or ends the line. */
  lemma PlaceKnown(e: Client, line: string, s: Scan)
    requires Between(e, line, s)
    ensures Known(e, line, s)
  {
    hide StartsAt, SpecialAt, LineComment, Known, SkipsSpace, SoundScan;
    if s.pos == |line| {
      EndKnown(e, line, s);
    } else if SkipsSpace(e, line, s) {
      BlankKnown(e, line, s);
    } else if line[s.pos] == '\\' {
      BackslashKnown(e, line, s);
    } else if AtDelimiter(line, s) {
      DelimiterKnown(e, line, s);
    } else if LineComment(line, s.pos) {
      RemarkKnown(e, line, s);
    } else if SpecialAt(line, s.pos) {
      MarkKnown(e, line, s);
    } else if UnmarkLaid(line, s) {
      UnmarkKnown(e, line, s);
    } else if s.special != Hint && StartsAt(line, s.pos, "/*") {
      CommentKnown(e, line, s);
    } else if s.special != Hint && IsQuote(line[s.pos]) {
      QuoteKnown(e, line, s);
    } else {
      PlainKnown(e, line, s);
    }
  }

  // ----- whole lines ------------------------------------------------------------------------------------------

  /** From here to its end the line is made of these items and ends in this way. */
  predicate Described(e: Client, line: string, s: Scan, items: seq<Item>, end: End) {
    Laid(e, line, s, items) && EndingLaid(line, ItemsEffect(e, s, items), end)
  }

  lemma {:induction false} RestDescribed(e: Client, line: string, s: Scan) returns (items: seq<Item>, end: End)
    requires Goes(e, line, s)
    ensures Described(e, line, s, items, end)
    decreases if s.c.quit then 0 else 1 + |line| - s.pos
  {
    hide ItemLaid, ItemEffect, EndingLaid, SoundScan;
    items, end := [], Plainly;
    if s.c.quit {
      Over(line, s);
    } else {
      PlaceKnown(e, line, s);
      if exists item :: There(e, line, s, item) {
        var item :| There(e, line, s, item);
        RunEvaluates(e, line);
        ItemRuns(e, line, s, item, Evaluator(e, line));
        var rest;
        rest, end := RestDescribed(e, line, ItemEffect(e, s, item));
        items := [item] + rest;
        assert items[1..] == rest;
      } else {
        end :| EndingLaid(line, s, end);
      }
    }
  }

  lemma Over(line: string, s: Scan)
    requires s.c.quit
    ensures EndingLaid(line, s, Plainly)
  {
  }

  /** How a line that goes on in a literal or a comment gets out of it. */
  lemma HeadKnown(c: Carry, line: string) returns (head: Head)
    requires Sound(c) && NUL !in line
    requires c.quote != NUL ==> !OpenTail(c.quote, c.noEscapes, line)
    requires c.comment ==> !BodyLaid(line, 0, NoSpecial, line)
    ensures HeadLaid(line, c, head)
  {
    hide OpenTail, Body, BodyLaid, LiteralLength, CommentLength;
    assert line[0..] == line;
    if c.quote != NUL {
      var n := LiteralLength(c.quote, c.noEscapes, line);
      LiteralEnds(c.quote, c.noEscapes, line);
      assert line[0..n + 1] == line[..n] + [c.quote];
      head := LiteralRest(line[..n]);
    } else if c.comment {
      var n := CommentLength(NoSpecial, line);
      BodyThere(line, 0, NoSpecial);
      assert line[..|line|] == line;
      RestOf(line, 0, n);
      Together(line, 0, line[..n], "*/");
      head := CommentRest(line[..n]);
    } else {
      head := Anew;
    }
  }

  lemma ItemsKnown(e: Client, c: Carry, line: string, truncated: bool) returns (row: Row)
    requires Sound(c) && !c.quit && NUL !in line && !IsCommand(e, c, line)
    requires c.quote != NUL ==> !OpenTail(c.quote, c.noEscapes, line)
    requires c.comment ==> !BodyLaid(line, 0, NoSpecial, line)
    ensures RowLaid(e, c, row, Line(line, truncated))
  {
    hide OpenTail, BodyLaid, HeadLaid, HeadEffect, Laid, EndingLaid, ItemsEffect, IsCommand;
    var head := HeadKnown(c, line);
    RunEvaluates(e, line);
    HeadRuns(e, c, line, head, Evaluator(e, line));
    var items, end := RestDescribed(e, line, HeadEffect(e, c, head));
    row := Items(head, items, end, truncated);
  }

  /** Every input has a row. */
  lemma EveryInput(e: Client, c: Carry, i: Input)
    requires Sound(c) && !c.quit && (i.Line? ==> NUL !in i.text)
    ensures exists row :: RowLaid(e, c, row, i)
  {
    hide OpenTail, BodyLaid, HeadLaid, HeadEffect, Laid, EndingLaid, ItemsEffect, IsCommand;
    if i.Interrupt? {
      assert RowLaid(e, c, Interrupted, i);
    } else if IsCommand(e, c, i.text) {
      assert RowLaid(e, c, Row.Command(i.text), i);
    } else if (c.quote != NUL && OpenTail(c.quote, c.noEscapes, i.text)) || (c.comment && BodyLaid(i.text, 0, NoSpecial, i.text)) {
      assert RowLaid(e, c, Continued(i.text, i.truncated), i);
    } else {
      var row := ItemsKnown(e, c, i.text, i.truncated);
    }
  }

  /** Every session has a description by rows, and the reader has its effects. */
  lemma {:induction false} EverySession(e: Client, c: Carry, inputs: seq<Input>)
    requires Sound(c) && forall i | i in inputs && i.Line? :: NUL !in i.text
    ensures exists rows :: RowsLaid(e, c, rows, inputs) && ReadAll(e, c, inputs) == Effects(e, c, rows)
    decreases |inputs|
  {
    hide RowLaid, Effect, ReadInput, Sound;
    var rows := RowsKnown(e, c, inputs);
    RowsRead(e, c, rows, inputs);
  }

  lemma {:induction false} RowsKnown(e: Client, c: Carry, inputs: seq<Input>) returns (rows: seq<Row>)
    requires Sound(c) && forall i | i in inputs && i.Line? :: NUL !in i.text
    ensures RowsLaid(e, c, rows, inputs)
    decreases |inputs|
  {
    hide RowLaid, Effect, ReadInput, Sound;
    if inputs == [] {
      rows := [];
    } else if c.quit {
      rows := seq(|inputs|, _ => Interrupted);
    } else {
      assert inputs[0] in inputs && forall i | i in inputs[1..] :: i in inputs;
      EveryInput(e, c, inputs[0]);
      var row :| RowLaid(e, c, row, inputs[0]);
      RowRead(e, c, row, inputs[0]);
      RowSound(e, c, row, inputs[0]);
      var rest := RowsKnown(e, Effect(e, c, row), inputs[1..]);
      rows := [row] + rest;
      assert rows[1..] == rest;
    }
  }
}
