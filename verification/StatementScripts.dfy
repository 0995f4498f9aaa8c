/**
 What arrives at the server: the text that is kept of a statement, item by item,
 and that joining statements by the delimiter, on one line or over many, is undone
 by the reader.
 */
module StatementScripts {
  import opened Wrappers
  import opened Sequences
  import opened StatementScanner
  import opened StatementTheorems
  import opened StatementComments
  import opened StatementItems
  import opened StatementRows

  // ----- the text of a statement -----------------------------------------------------------------------

  /** The text so far, whether a comment before it still owes a blank, and the special comment that is open. */
  datatype Pen = Pen(text: string, owed: bool, special: SpecialComment)

  /** Blanks in front are dropped, unless comments are kept. */
  function WriteChar(keep: bool, p: Pen, ch: char): Pen {
    if !keep && IsSpace(ch) && p.text == "" then p
    else p.(text := p.text + (if p.owed && !IsSpace(ch) then [' ', ch] else [ch]), owed := false)
  }

  function WriteText(keep: bool, p: Pen, text: string): Pen
    decreases |text|
  {
    if text == "" then p else WriteText(keep, WriteChar(keep, p, text[0]), text[1..])
  }

  /** The text of a comment that is kept. */
  function WriteBody(p: Pen, body: string): Pen
    decreases |body|
  {
    if body == "" then p
    else if Opens(p.special, body) then WriteBody(p.(text := p.text + "/*"), body[2..])
    else WriteBody(WriteChar(true, p, body[0]).(special := SpecialIn(p.special, body)), body[1..])
  }

  /** The items of which a statement is made. */
  predicate IsPiece(item: Item) {
    !item.Short? && !item.Delimit?
  }

  /** A comment leaves nothing but an owed blank, unless comments are kept; all else is kept as it is. */
  function Write(keep: bool, p: Pen, item: Item): Pen {
    match item
    case Blank(ch) => WriteChar(keep, p, ch)
    case Plain(text) => WriteText(keep, p, text)
    case Literal(q, body) => WriteText(keep, p, [q] + body + [q])
    case Comment(body) =>
      Pen(if keep then WriteBody(p.(text := p.text + "/*"), body).text + "*/" else p.text, true, NoSpecial)
    case Mark(kind) => WriteChar(keep, p, '/').(special := kind)
    case Unmark => WriteChar(keep, p, '*').(special := NoSpecial)
    case Escape(ch) => p.(text := p.text + ['\\', ch])
    case _ => p
  }

  function WriteAll(keep: bool, p: Pen, pieces: seq<Item>): Pen
    decreases |pieces|
  {
    if pieces == [] then p else WriteAll(keep, Write(keep, p, pieces[0]), pieces[1..])
  }

  /** How much of the scan's state a piece of text concerns. */
  function PenOf(s: Scan): Pen {
    Pen(s.c.buffer + s.out, s.space, s.special)
  }

  /** Everything but the text is as it was. */
  predicate SameBut(s: Scan, t: Scan) {
    t.c == s.c.(buffer := t.c.buffer) && t.stop == s.stop
  }

  lemma CharWritten(e: Client, s: Scan, ch: char)
    ensures var t := KeepChar(e, s, ch); PenOf(t) == WriteChar(e.keepComments, PenOf(s), ch) && SameBut(s, t)
  {
    var text := if s.space && !IsSpace(ch) then [' ', ch] else [ch];
    Assoc(s.c.buffer, s.out, text);
  }

  lemma {:induction false} TextWritten(e: Client, s: Scan, text: string)
    ensures var t := KeepText(e, s, text); PenOf(t) == WriteText(e.keepComments, PenOf(s), text) && SameBut(s, t)
    decreases |text|
  {
    hide KeepChar, WriteChar;
    if text != "" {
      CharWritten(e, s, text[0]);
      TextWritten(e, KeepChar(e, s, text[0]), text[1..]);
    }
  }

  lemma FlushSame(s: Scan, out: string)
    ensures PenOf(Flush(s.(out := s.out + out))) == Pen(PenOf(s).text + out, s.space, s.special)
    ensures PenOf(Flush(s)) == PenOf(s)
  {
    Assoc(s.c.buffer, s.out, out);
    assert s.c.buffer + s.out + "" == s.c.buffer + s.out;
  }

  lemma {:induction false} BodyWritten(e: Client, s: Scan, body: string)
    requires e.keepComments && s.c.comment
    ensures var t := Within(e, s, body); PenOf(t) == WriteBody(PenOf(s), body) && SameBut(s, t)
    decreases |body|
  {
    hide KeepChar, WriteChar, SpecialIn;
    if body != "" {
      if Opens(s.special, body) { FlushSame(s, "/*"); } else { CharWritten(e, s, body[0]); }
      BodyWritten(e, BodyStep(e, s, body), body[BodyTaken(s.special, body)..]);
    }
  }

  lemma {:induction false} BodyDropped(e: Client, s: Scan, body: string)
    requires !e.keepComments && s.c.comment && s.out == ""
    ensures var t := Within(e, s, body);
            t.c == s.c && t.out == "" && t.space == s.space && t.stop == s.stop && t.special == SpecialBehind(s.special, body)
    decreases |body|
  {
    if body != "" {
      assert s.c.buffer + "" == s.c.buffer;
      BodyDropped(e, BodyStep(e, s, body), body[BodyTaken(s.special, body)..]);
    }
  }

  lemma {:induction false} BodyBehind(p: Pen, body: string)
    ensures WriteBody(p, body).special == SpecialBehind(p.special, body)
    decreases |body|
  {
    if body != "" {
      if Opens(p.special, body) { BodyBehind(p.(text := p.text + "/*"), body[2..]); }
      else { BodyBehind(WriteChar(true, p, body[0]).(special := SpecialIn(p.special, body)), body[1..]); }
    }
  }

  lemma CommentWritten(e: Client, s: Scan, body: string)
    requires !s.c.comment && SpecialBehind(s.special, body) == NoSpecial
    ensures var t := AfterComment(e, s, body); PenOf(t) == Write(e.keepComments, PenOf(s), Comment(body)) && SameBut(s, t)
  {
    hide Within, WriteBody, SpecialBehind;
    var o := StepOpen(e, s);
    FlushSame(s, "/*");
    if e.keepComments {
      BodyWritten(e, o, body);
      BodyBehind(PenOf(o), body);
      FlushSame(Within(e, o, body), "*/");
    } else {
      BodyDropped(e, o, body);
      FlushSame(Within(e, o, body), "");
    }
  }

  /** An escape that is not fatal. */
  predicate Harmless(e: Client, item: Item) {
    item.Escape? ==> item.ch == 'N' || !e.errorsAreFatal
  }

  /** A piece of a statement changes its text as written here, and nothing else. */
  lemma PieceWritten(e: Client, line: string, s: Scan, item: Item)
    requires IsPiece(item) && Harmless(e, item) && s.pos <= |line| && !s.c.comment && ItemLaid(e, line, s, item)
    ensures var t := ItemEffect(e, s, item); PenOf(t) == Write(e.keepComments, PenOf(s), item) && SameBut(s, t)
  {
    hide KeepText, KeepChar, WriteText, WriteChar, AfterComment, Clean, Body, MarkLaid, UnmarkLaid, EscapeLaid, StaysIn;
    match item
    case Blank(ch) => CharWritten(e, s, ch);
    case Plain(text) => TextWritten(e, s, text);
    case Literal(q, body) => TextWritten(e, s, [q] + body + [q]);
    case Comment(body) =>
      assert CommentSource(body) == "/*" + (body + "*/");
      StartsSecond(line, s.pos, "/*", body + "*/");
      StartsSecond(line, s.pos + 2, body, "*/");
      CommentWritten(e, s, body);
    case Mark(kind) => CharWritten(e, s, '/');
    case Unmark => CharWritten(e, s, '*');
    case Escape(ch) => Assoc(s.c.buffer, s.out, ['\\', ch]);
  }

  predicate ArePieces(e: Client, items: seq<Item>) {
    forall i | i in items :: IsPiece(i) && Harmless(e, i)
  }

  lemma {:induction false} PiecesWritten(e: Client, line: string, s: Scan, pieces: seq<Item>)
    requires ArePieces(e, pieces) && !s.c.comment && !s.c.quit && Laid(e, line, s, pieces)
    ensures var t := ItemsEffect(e, s, pieces); PenOf(t) == WriteAll(e.keepComments, PenOf(s), pieces) && SameBut(s, t)
    decreases |pieces|
  {
    hide ItemEffect, ItemLaid, Write, IsPiece, Harmless;
    if pieces != [] {
      assert pieces[0] in pieces;
      PieceWritten(e, line, s, pieces[0]);
      PiecesWritten(e, line, ItemEffect(e, s, pieces[0]), pieces[1..]);
    }
  }

  // ----- without comments the text is the source -----------------------------------------------------------

  function Source(item: Item): string {
    match item
    case Blank(ch) => [ch]
    case Plain(text) => text
    case Literal(q, body) => [q] + body + [q]
    case Comment(body) => CommentSource(body)
    case Mark(_) => "/"
    case Unmark => "*"
    case Escape(ch) => ['\\', ch]
    case Short(ch, args, _) => ['\\', ch] + args
    case Delimit(blanks, remark) => blanks + remark
  }

  function Sources(items: seq<Item>): string {
    if items == [] then "" else Source(items[0]) + Sources(items[1..])
  }

  /** What is left of a text when blanks in front of a statement are dropped. */
  function Trimmed(keep: bool, before: string, text: string): string {
    if !keep && before == "" then text[SkipSpaces(text, 0)..] else text
  }

  lemma {:induction false} SkipSpacesCons(ch: char, text: string, k: nat)
    requires k <= |text|
    ensures SkipSpaces([ch] + text, k + 1) == SkipSpaces(text, k) + 1
    decreases |text| - k
  {
    if k < |text| && IsSpace(text[k]) { SkipSpacesCons(ch, text, k + 1); }
  }

  /** Dropping blanks one character at a time. */
  lemma TrimmedFirst(keep: bool, before: string, ch: char, rest: string)
    ensures Trimmed(keep, before, [ch] + rest) ==
            if !keep && before == "" && IsSpace(ch) then Trimmed(keep, before, rest) else [ch] + rest
  {
    var text := [ch] + rest;
    SkipSpacesCons(ch, rest, 0);
    if !keep && before == "" && IsSpace(ch) {
      assert text[SkipSpaces(text, 0)..] == rest[SkipSpaces(rest, 0)..];
    } else {
      assert text[0..] == text;
    }
  }

  lemma NotTrimmed(keep: bool, before: string, text: string)
    requires keep || before != ""
    ensures Trimmed(keep, before, text) == text
  {
  }

  lemma {:induction false} TextIsTrimmed(keep: bool, p: Pen, text: string)
    requires !p.owed
    ensures WriteText(keep, p, text) == p.(text := p.text + Trimmed(keep, p.text, text))
    decreases |text|
  {
    hide Trimmed;
    if text == "" {
      NothingTrimmed(keep, p.text);
      assert p.text + "" == p.text;
    } else {
      var ch, rest := text[0], text[1..];
      assert text == [ch] + rest;
      TrimmedFirst(keep, p.text, ch, rest);
      TextIsTrimmed(keep, WriteChar(keep, p, ch), rest);
      if keep || p.text != "" || !IsSpace(ch) {
        NotTrimmed(keep, p.text + [ch], rest);
        Assoc(p.text, [ch], rest);
      }
    }
  }

  lemma {:induction false} TrimmedMore(keep: bool, before: string, a: string, b: string)
    ensures Trimmed(keep, before, a) + Trimmed(keep, before + Trimmed(keep, before, a), b) == Trimmed(keep, before, a + b)
    decreases |a|
  {
    hide Trimmed;
    if a == "" {
      NothingTrimmed(keep, before);
      assert a + b == b && before + "" == before && "" + Trimmed(keep, before, b) == Trimmed(keep, before, b);
    } else {
      var ch, rest := a[0], a[1..];
      assert a == [ch] + rest;
      Assoc([ch], rest, b);
      TrimmedFirst(keep, before, ch, rest);
      TrimmedFirst(keep, before, ch, rest + b);
      if !keep && before == "" && IsSpace(ch) {
        TrimmedMore(keep, before, rest, b);
      } else {
        NotTrimmed(keep, before + a, b);
      }
    }
  }

  predicate NoComments(pieces: seq<Item>) {
    forall i | i in pieces :: IsPiece(i) && !i.Comment?
  }

  lemma PieceIsSource(keep: bool, p: Pen, item: Item)
    requires IsPiece(item) && !item.Comment? && !p.owed
    ensures var q := Write(keep, p, item); q.text == p.text + Trimmed(keep, p.text, Source(item)) && !q.owed
  {
    hide WriteText, WriteChar, Trimmed;
    TextIsTrimmed(keep, p, Source(item));
    if item.Blank? { OneChar(keep, p, item.ch); }
    OneChar(keep, p, '/');
    OneChar(keep, p, '*');
    if item.Escape? { EscapeUntrimmed(keep, p.text, item.ch); }
  }

  lemma OneChar(keep: bool, p: Pen, ch: char)
    ensures WriteText(keep, p, [ch]) == WriteChar(keep, p, ch)
  {
    assert [ch][1..] == "";
  }

  lemma EscapeUntrimmed(keep: bool, before: string, ch: char)
    ensures Trimmed(keep, before, ['\\', ch]) == ['\\', ch]
  {
    assert SkipSpaces(['\\', ch], 0) == 0;
  }

  /** Without comments the text of a statement is its source, but for blanks in front. */
  lemma {:induction false} TextIsSource(keep: bool, p: Pen, pieces: seq<Item>)
    requires NoComments(pieces) && !p.owed
    ensures var q := WriteAll(keep, p, pieces); q.text == p.text + Trimmed(keep, p.text, Sources(pieces)) && !q.owed
    decreases |pieces|
  {
    hide Write, Trimmed, Source;
    if pieces == [] {
      NothingTrimmed(keep, p.text);
      assert p.text + "" == p.text;
    } else {
      assert pieces[0] in pieces;
      var first, more := Source(pieces[0]), Sources(pieces[1..]);
      PieceIsSource(keep, p, pieces[0]);
      var q := Write(keep, p, pieces[0]);
      TextIsSource(keep, q, pieces[1..]);
      TrimmedMore(keep, p.text, first, more);
      Assoc(p.text, Trimmed(keep, p.text, first), Trimmed(keep, q.text, more));
    }
  }

  lemma NothingTrimmed(keep: bool, before: string)
    ensures Trimmed(keep, before, "") == ""
  {
  }

  // ----- statements joined on a line ---------------------------------------------------------------------------

  /** A statement with what its delimiter takes along. */
  datatype Delimited = Delimited(pieces: seq<Item>, blanks: string, remark: string)

  function Joined(statements: seq<Delimited>): seq<Item> {
    if statements == [] then []
    else statements[0].pieces + [Delimit(statements[0].blanks, statements[0].remark)] + Joined(statements[1..])
  }

  /** The texts of the statements; a blank owed by a comment is paid by the next statement. */
  function Texts(keep: bool, p: Pen, statements: seq<Delimited>): seq<string>
    decreases |statements|
  {
    if statements == [] then []
    else
      var q := WriteAll(keep, p, statements[0].pieces);
      [q.text + statements[0].blanks + statements[0].remark] + Texts(keep, q.(text := ""), statements[1..])
  }

  /** Sent one after the other, as long as the session goes on. */
  function SendAll(e: Client, c: Carry, texts: seq<string>): Carry
    decreases |texts|
  {
    if texts == [] || c.quit then c else SendAll(e, Send(e, c.(buffer := texts[0])), texts[1..])
  }

  function Sent(text: string): seq<Action> {
    if RemoveControl(text) == "" then [] else [Statement(RemoveControl(text))]
  }

  function AllSent(texts: seq<string>): seq<Action> {
    if texts == [] then [] else Sent(texts[0]) + AllSent(texts[1..])
  }

  /** What is sent is these texts in order, all of them unless the session ends. */
  lemma {:induction false} SendAllLog(e: Client, c: Carry, texts: seq<string>)
    requires !c.quit
    ensures var r := SendAll(e, c, texts);
            && c.log <= r.log <= c.log + AllSent(texts) && (!r.quit ==> r.log == c.log + AllSent(texts))
    decreases |texts|
  {
    hide RemoveControl;
    if texts == [] {
      assert c.log + [] == c.log;
    } else {
      var d := Send(e, c.(buffer := texts[0]));
      assert c.log + [] == c.log;
      assert d.log == c.log + Sent(texts[0]);
      Assoc(c.log, Sent(texts[0]), AllSent(texts[1..]));
      if !d.quit { SendAllLog(e, d, texts[1..]); }
    }
  }

  /** A text that ends in a visible character is sent as it is. */
  lemma VisibleSent(e: Client, c: Carry, text: string)
    requires text != "" && Visible(text[|text| - 1])
    ensures Send(e, c.(buffer := text)).log == c.log + [Statement(text)]
  {
    var r := RemoveControl(text);
    assert |r| == |text|;
  }

  lemma {:induction false} EffectAppend(e: Client, s: Scan, a: seq<Item>, b: seq<Item>)
    ensures ItemsEffect(e, s, a + b) == ItemsEffect(e, ItemsEffect(e, s, a), b)
    decreases |a|
  {
    hide ItemEffect;
    if a == [] {
      assert a + b == b;
    } else if !s.c.quit {
      assert (a + b)[0] == a[0] && (a + b)[1..] == a[1..] + b;
      EffectAppend(e, ItemEffect(e, s, a[0]), a[1..], b);
    }
  }

  lemma {:induction false} LaidAppend(e: Client, line: string, s: Scan, a: seq<Item>, b: seq<Item>)
    requires Laid(e, line, s, a + b)
    ensures Laid(e, line, s, a) && Laid(e, line, ItemsEffect(e, s, a), b)
    decreases |a|
  {
    hide ItemEffect, ItemLaid;
    if a == [] {
      assert a + b == b;
    } else if !s.c.quit {
      assert (a + b)[0] == a[0] && (a + b)[1..] == a[1..] + b;
      LaidAppend(e, line, ItemEffect(e, s, a[0]), a[1..], b);
    }
  }

  /** A statement that reads like no client command is sent. */
  lemma CompleteSends(e: Client, c: Carry)
    requires FindCommand(e, c.buffer, c.delimiter) == None
    ensures Complete(e, c) == Send(e, c)
  {
    hide FindCommand, RemoveControl;
  }

  /** One that does is run, and nothing of it stays buffered unless that ends the session. */
  lemma CompleteRuns(e: Client, c: Carry)
    requires FindCommand(e, c.buffer, c.delimiter).Some?
    ensures var r, p := Complete(e, c), Perform(e, c, FindCommand(e, c.buffer, c.delimiter).value, c.buffer);
            if p.quit then r == p else r == p.(buffer := "")
  {
    hide FindCommand, Perform;
  }

  predicate NoCommands(e: Client, d: string, texts: seq<string>) {
    forall t | t in texts :: FindCommand(e, t, d) == None
  }

  predicate AllPieces(e: Client, statements: seq<Delimited>) {
    forall s | s in statements :: ArePieces(e, s.pieces)
  }

  /** The first of the statements. */
  lemma FirstSent(e: Client, line: string, s: Scan, st: Delimited)
    requires Laid(e, line, s, st.pieces + [Delimit(st.blanks, st.remark)]) && ArePieces(e, st.pieces)
    requires !s.c.quit && !s.c.comment
    requires var q := WriteAll(e.keepComments, PenOf(s), st.pieces);
             FindCommand(e, q.text + st.blanks + st.remark, s.c.delimiter) == None
    ensures var t := ItemsEffect(e, s, st.pieces + [Delimit(st.blanks, st.remark)]);
            var q := WriteAll(e.keepComments, PenOf(s), st.pieces);
            && t.c == Send(e, s.c.(buffer := q.text + st.blanks + st.remark)) && t.out == "" && PenOf(t) == q.(text := "") && t.stop == s.stop
  {
    hide ItemLaid, ItemEffect, FindCommand, Send, Complete, Write;
    var d := [Delimit(st.blanks, st.remark)];
    LaidAppend(e, line, s, st.pieces, d);
    EffectAppend(e, s, st.pieces, d);
    PiecesWritten(e, line, s, st.pieces);
    var u := ItemsEffect(e, s, st.pieces);
    assert d[1..] == [];
    DelimitIs(e, u, st.blanks, st.remark);
    OneItem(e, u, d[0]);
    CompleteSends(e, u.c.(buffer := u.c.buffer + u.out + st.blanks + st.remark));
    assert u.c.(buffer := u.c.buffer + u.out + st.blanks + st.remark) == s.c.(buffer := u.c.buffer + u.out + st.blanks + st.remark);
    SendIs(e, s.c.(buffer := u.c.buffer + u.out + st.blanks + st.remark));
  }

  lemma OneItem(e: Client, s: Scan, item: Item)
    requires !s.c.quit
    ensures ItemsEffect(e, s, [item]) == ItemEffect(e, s, item)
  {
    hide ItemEffect;
    assert [item][1..] == [];
  }

  lemma DelimitIs(e: Client, s: Scan, blanks: string, remark: string)
    ensures ItemEffect(e, s, Delimit(blanks, remark)) == AfterDelimit(e, s, blanks, remark)
  {
  }

  lemma SendIs(e: Client, c: Carry)
    ensures var r := Send(e, c); r.buffer == "" && r.delimiter == c.delimiter && r.quote == c.quote && r.comment == c.comment
  {
  }

  lemma {:induction false} JoinedSends(e: Client, line: string, s: Scan, statements: seq<Delimited>)
    requires Laid(e, line, s, Joined(statements)) && AllPieces(e, statements) && !s.c.comment
    requires s.c.buffer == "" && s.out == ""
    requires NoCommands(e, s.c.delimiter, Texts(e.keepComments, PenOf(s), statements))
    ensures var t := ItemsEffect(e, s, Joined(statements));
            t.c == SendAll(e, s.c, Texts(e.keepComments, PenOf(s), statements)) && t.out == "" && t.stop == s.stop
    decreases |statements|
  {
    hide ItemLaid, ItemEffect, FindCommand, Send, ArePieces, Write;
    if statements != [] && !s.c.quit {
      var st := statements[0];
      assert st in statements;
      var first, more := st.pieces + [Delimit(st.blanks, st.remark)], Joined(statements[1..]);
      var texts := Texts(e.keepComments, PenOf(s), statements);
      assert texts[0] in texts;
      LaidAppend(e, line, s, first, more);
      EffectAppend(e, s, first, more);
      FirstSent(e, line, s, st);
      var u := ItemsEffect(e, s, first);
      SendIs(e, s.c.(buffer := texts[0]));
      assert forall t | t in texts[1..] :: t in texts;
      JoinedSends(e, line, u, statements[1..]);
    }
  }

  /**
   Splitting undoes joining: a line in which any statements -- with any literals,
   comments and hints in them -- are each closed by the delimiter sends exactly the
   texts of these statements, in order, and leaves nothing behind.
   */
  lemma SplitUndoesJoin(e: Client, c: Carry, line: string, statements: seq<Delimited>, truncated: bool)
    requires Sound(c) && !c.quit && c.quote == NUL && !c.comment && c.buffer == "" && NUL !in line
    requires AllPieces(e, statements) && Laid(e, line, Begin(c), Joined(statements))
    requires var t := ItemsEffect(e, Begin(c), Joined(statements)); t.pos == |line| || t.c.quit
    requires NoCommands(e, c.delimiter, Texts(e.keepComments, Pen("", false, NoSpecial), statements))
    ensures AddLine(e, c, line, truncated) == SendAll(e, c, Texts(e.keepComments, Pen("", false, NoSpecial), statements))
  {
    hide Run, Evaluates, Stops, Laid, ItemsEffect, Texts, SendAll, FindCommand, AllPieces, NoCommands;
    var run, s := Evaluator(e, line), Begin(c);
    RunEvaluates(e, line);
    EvaluatorStops(e, line);
    ItemsRun(e, line, s, Joined(statements), run);
    assert PenOf(s) == Pen("", false, NoSpecial);
    JoinedSends(e, line, s, statements);
    var t := ItemsEffect(e, s, Joined(statements));
    Halts(line, t, run);
    if line == "" { EmptyLine(e, c, truncated); }
    SendAllEnds(e, c, Texts(e.keepComments, Pen("", false, NoSpecial), statements));
  }

  lemma Halts(line: string, t: Scan, run: Scan -> Scan)
    requires Stops(line, run) && ValidDelimiter(t.c.delimiter) && Halted(line, t)
    ensures run(t) == t
  {
  }

  lemma {:induction false} SendAllEnds(e: Client, c: Carry, texts: seq<string>)
    requires c.buffer == ""
    ensures SendAll(e, c, texts).buffer == ""
    decreases |texts|
  {
    hide Send;
    if texts != [] && !c.quit {
      SendIs(e, c.(buffer := texts[0]));
      SendAllEnds(e, Send(e, c.(buffer := texts[0])), texts[1..]);
    }
  }

  // ----- a statement over several lines -----------------------------------------------------------------------

  /** What stands on a line of a statement; a line that is too long comes in parts, all but the last truncated. */
  datatype Part = Part(pieces: seq<Item>, truncated: bool)

  /** Each part on a line of its own, and the delimiter behind the last. */
  function Spread(parts: seq<Part>, last: Delimited): seq<Row> {
    if parts == [] then [Items(Anew, last.pieces + [Delimit(last.blanks, last.remark)], Plainly, false)]
    else [Items(Anew, parts[0].pieces, Plainly, parts[0].truncated)] + Spread(parts[1..], last)
  }

  /** What is buffered behind a line that begins or continues a statement. */
  function WithLine(e: Client, c: Carry, part: Part): string {
    var s := ItemsEffect(e, Begin(c), part.pieces);
    var text := WriteAll(e.keepComments, Pen(c.buffer, false, NoSpecial), part.pieces).text;
    if text == "" then "" else text + if part.truncated || IsDelimiterCommand(s.out) then "" else ['\n']
  }

  /** The text of the statement, with the line ends it was given. */
  function SpreadText(e: Client, c: Carry, parts: seq<Part>, last: Delimited): string
    decreases |parts|
  {
    if parts == [] then WriteAll(e.keepComments, Pen(c.buffer, false, NoSpecial), last.pieces).text + last.blanks + last.remark
    else SpreadText(e, c.(buffer := WithLine(e, c, parts[0])), parts[1..], last)
  }

  lemma PartKept(e: Client, c: Carry, part: Part, line: string)
    requires Sound(c) && !c.quit && !c.comment && ArePieces(e, part.pieces) && Laid(e, line, Begin(c), part.pieces)
    requires c.quote == NUL
    ensures Effect(e, c, Items(Anew, part.pieces, Plainly, part.truncated)) == c.(buffer := WithLine(e, c, part))
  {
    hide Laid, ItemsEffect, WriteAll, IsDelimiterCommand, ArePieces;
    PiecesWritten(e, line, Begin(c), part.pieces);
    assert PenOf(Begin(c)) == Pen(c.buffer, false, NoSpecial) by { assert c.buffer + "" == c.buffer; }
    var t := ItemsEffect(e, Begin(c), part.pieces);
    assert t.c.buffer + t.out + "" == t.c.buffer + t.out;
  }

  /** A line that ends inside a literal is buffered with its line end, whatever it begins with. */
  lemma OpeningKept(e: Client, c: Carry, part: Part, q: char, tail: string, line: string)
    requires Sound(c) && !c.quit && !c.comment && ArePieces(e, part.pieces) && Laid(e, line, Begin(c), part.pieces)
    requires c.quote == NUL && IsQuote(q)
    ensures var p := WriteChar(e.keepComments, WriteAll(e.keepComments, Pen(c.buffer, false, NoSpecial), part.pieces), q);
            Effect(e, c, Items(Anew, part.pieces, Opening(q, tail), part.truncated)) ==
            c.(buffer := p.text + TailKept(c.noEscapes, tail) + (if part.truncated then "" else ['\n']), quote := q)
  {
    hide Laid, ItemsEffect, WriteAll, IsDelimiterCommand, ArePieces, TailKept, EndsInBackslash, KeepChar, WriteChar;
    PiecesWritten(e, line, Begin(c), part.pieces);
    assert PenOf(Begin(c)) == Pen(c.buffer, false, NoSpecial) by { assert c.buffer + "" == c.buffer; }
    var t := ItemsEffect(e, Begin(c), part.pieces);
    CharWritten(e, t, q);
    var u := KeepChar(e, t, q);
    QuoteWritten(e, t, q);
    CharSame(e, t, q);
    Assoc(u.c.buffer, u.out, TailKept(c.noEscapes, tail));
    var v := AfterTail(u.(c := t.c.(quote := q)), tail);
    assert v.out == u.out + TailKept(c.noEscapes, tail) && v.out != "" && v.c == c.(buffer := t.c.buffer, quote := q);
    assert v.c.buffer + v.out + "" == v.c.buffer + v.out;
  }

  lemma QuoteWritten(e: Client, s: Scan, q: char)
    requires IsQuote(q)
    ensures KeepChar(e, s, q).out != ""
  {
  }

  lemma LastSent(e: Client, c: Carry, last: Delimited, line: string)
    requires Sound(c) && !c.quit && !c.comment && c.quote == NUL && ArePieces(e, last.pieces)
    requires Laid(e, line, Begin(c), last.pieces + [Delimit(last.blanks, last.remark)])
    requires FindCommand(e, SpreadText(e, c, [], last), c.delimiter) == None
    ensures Effect(e, c, Items(Anew, last.pieces + [Delimit(last.blanks, last.remark)], Plainly, false)) ==
            Send(e, c.(buffer := SpreadText(e, c, [], last)))
  {
    hide Laid, ItemsEffect, WriteAll, IsDelimiterCommand, ArePieces, FindCommand, Send;
    assert PenOf(Begin(c)) == Pen(c.buffer, false, NoSpecial) by { assert c.buffer + "" == c.buffer; }
    FirstSent(e, line, Begin(c), last);
    SendIs(e, c.(buffer := SpreadText(e, c, [], last)));
  }

  predicate PartsArePieces(e: Client, parts: seq<Part>) {
    forall p | p in parts :: ArePieces(e, p.pieces)
  }

  /** A statement spread over lines is sent once, whole, when its delimiter comes, and nothing else is. */
  lemma {:induction false} SpreadRead(e: Client, c: Carry, parts: seq<Part>, last: Delimited, inputs: seq<Input>)
    requires Sound(c) && !c.quit && c.quote == NUL && !c.comment && PartsArePieces(e, parts) && ArePieces(e, last.pieces)
    requires RowsLaid(e, c, Spread(parts, last), inputs)
    requires FindCommand(e, SpreadText(e, c, parts, last), c.delimiter) == None
    ensures ReadAll(e, c, inputs) == Send(e, c.(buffer := SpreadText(e, c, parts, last)))
    decreases |parts|
  {
    hide Laid, ItemsEffect, FindCommand, Send, ArePieces, ReadInput, WithLine, Effect, IsCommand;
    var rows := Spread(parts, last);
    if parts == [] {
      RowRead(e, c, rows[0], inputs[0]);
      LastSent(e, c, last, inputs[0].text);
      assert inputs[1..] == [];
      OneRead(e, c, inputs[0], inputs[1..]);
      NoneRead(e, ReadInput(e, c, inputs[0]));
    } else {
      assert parts[0] in parts && rows[0] == Items(Anew, parts[0].pieces, Plainly, parts[0].truncated) && rows[1..] == Spread(parts[1..], last);
      RowRead(e, c, rows[0], inputs[0]);
      PartKept(e, c, parts[0], inputs[0].text);
      OneRead(e, c, inputs[0], inputs[1..]);
      SpreadRead(e, c.(buffer := WithLine(e, c, parts[0])), parts[1..], last, inputs[1..]);
    }
  }

  lemma OneRead(e: Client, c: Carry, i: Input, rest: seq<Input>)
    requires ValidDelimiter(c.delimiter) && !c.quit
    ensures ReadAll(e, c, [i] + rest) == ReadAll(e, ReadInput(e, c, i), rest)
  {
    assert ([i] + rest)[1..] == rest;
  }

  lemma NoneRead(e: Client, c: Carry)
    requires ValidDelimiter(c.delimiter)
    ensures ReadAll(e, c, []) == c
  {
  }

  // ----- comments over several lines -----------------------------------------------------------------------------

  lemma CommentLine(e: Client, c: Carry, line: string, truncated: bool)
    requires Sound(c) && c.comment && !c.quit && !e.keepComments && NUL !in line && StaysIn(NoSpecial, line)
    ensures ReadInput(e, c, Line(line, truncated)) == c
  {
    hide ReadInput, Within, IsDelimiterCommand, StaysIn;
    assert line[0..|line|] == line;
    RowRead(e, c, Continued(line, truncated), Line(line, truncated));
    BodyDropped(e, Begin(c), line);
  }

  /** Lines inside a comment that none of them closes leave no trace, whatever they contain, unless comments are kept. */
  lemma {:induction false} CommentAcrossLines(e: Client, c: Carry, inputs: seq<Input>)
    requires Sound(c) && c.comment && !e.keepComments
    requires forall i | i in inputs :: i.Line? && NUL !in i.text && StaysIn(NoSpecial, i.text)
    ensures ReadAll(e, c, inputs) == c
    decreases |inputs|
  {
    hide ReadInput, StaysIn;
    if inputs != [] && !c.quit {
      assert inputs[0] in inputs;
      CommentLine(e, c, inputs[0].text, inputs[0].truncated);
      CommentAcrossLines(e, c, inputs[1..]);
    }
  }

  // ----- lines that are not commands -----------------------------------------------------------------

  lemma {:induction false} ContainsAt(text: string, part: string, k: nat, at: nat)
    requires k <= at && StartsAt(text, at, part)
    ensures Contains(text, part, k)
    decreases at - k
  {
    if k < at { ContainsAt(text, part, k + 1, at); }
  }

  lemma {:induction false} LeadingSpaces(line: string, k: nat, at: nat)
    requires k <= at < |line| && !IsSpace(line[at])
    ensures SkipSpaces(line, k) <= at
    decreases at - k
  {
    if k < at { LeadingSpaces(line, k + 1, at); }
  }

  /** A line with a delimiter in it is never taken for a named command, unless it sets the delimiter. */
  lemma DelimitedLineNoCommand(e: Client, line: string, d: string, at: nat)
    requires d != "" && !IsSpace(d[0]) && StartsAt(line, at, d)
    requires !IsDelimiterCommand(line[SkipSpaces(line, 0)..])
    ensures FindCommand(e, line, d) == None
  {
    assert line[at] == line[at..at + |d|][0] == d[0];
    LeadingSpaces(line, 0, at);
    var k := SkipSpaces(line, 0);
    var name := line[k..];
    assert name[at - k..at - k + |d|] == line[at..at + |d|];
    ContainsAt(name, d, 0, at - k);
  }

  // ----- an example ------------------------------------------------------------------------------------------------

  const EXAMPLE := "a';'/*;*/;"

  function ExampleStatement(): Delimited {
    Delimited([Plain("a"), Literal('\'', ";"), Comment(";")], "", "")
  }

  lemma NotDelimiter(k: nat)
    requires k < |EXAMPLE|
    ensures StartsAt(EXAMPLE, k, ";") <==> EXAMPLE[k] == ';'
  {
    assert EXAMPLE[k..k + 1] == [EXAMPLE[k]];
  }

  lemma ExampleBytes()
    ensures CleanAt(EXAMPLE, 0, ";", NoSpecial) && StartsAt(EXAMPLE, 0, "a")
    ensures StartsAt(EXAMPLE, 1, ['\''] + ";" + ['\'']) && !StartsAt(EXAMPLE, 1, ";") && StartsAt(EXAMPLE, 9, ";")
  {
    NotDelimiter(0);
    NotDelimiter(1);
    NotDelimiter(9);
    OpenBytes(EXAMPLE, 0);
    assert EXAMPLE[1..4] == ['\'', ';', '\''] == ['\''] + ";" + ['\''];
    assert EXAMPLE[0..1] == "a";
  }

  lemma ExampleComment(s: Scan)
    requires s.pos == 4 && s.special == NoSpecial && s.c.delimiter == ";"
    ensures CommentLaid(EXAMPLE, s, ";")
  {
    hide SpecialAt;
    NotDelimiter(4);
    CloseBytes(EXAMPLE, 7);
    SpecialBytes(EXAMPLE, 4);
    assert ";"[1..] == "";
    assert CommentSource(";") == ['/', '*', ';', '*', '/'] by { assert "/*" == ['/', '*'] && "*/" == ['*', '/']; }
    assert EXAMPLE[4] == '/' && EXAMPLE[5] == '*' && EXAMPLE[6] == ';' && EXAMPLE[7] == '*' && EXAMPLE[8] == '/';
    assert EXAMPLE[4..9] == ['/', '*', ';', '*', '/'];
    assert EXAMPLE[6..7] == [';'];
  }

  lemma ExampleLaid(e: Client, c: Carry)
    requires Fresh(c) && !e.keepComments
    ensures Laid(e, EXAMPLE, Begin(c), Joined([ExampleStatement()]))
    ensures ItemsEffect(e, Begin(c), Joined([ExampleStatement()])).pos == |EXAMPLE| || ItemsEffect(e, Begin(c), Joined([ExampleStatement()])).c.quit
  {
    hide CleanAt, CommentLaid, Complete, Within, KeepText, AfterComment;
    ExampleBytes();
    var d := Delimit("", "");
    var items := [Plain("a"), Literal('\'', ";"), Comment(";"), d];
    assert Joined([ExampleStatement()]) == items by { assert [ExampleStatement()][1..] == []; }
    var s0 := Begin(c);
    var s1 := ItemEffect(e, s0, items[0]);
    KeepSame(e, s0, "a");
    var s2 := ItemEffect(e, s1, items[1]);
    KeepSame(e, s1, ['\''] + ";" + ['\'']);
    var s3 := ItemEffect(e, s2, items[2]);
    ExampleComment(s2);
    CommentSame(e, s2, ";");
    assert Body('\'', c.noEscapes, ";");
    assert ItemLaid(e, EXAMPLE, s0, items[0]) && ItemLaid(e, EXAMPLE, s1, items[1]) && ItemLaid(e, EXAMPLE, s2, items[2]);
    assert ItemLaid(e, EXAMPLE, s3, d) by { assert EXAMPLE[10..10] == ""; }
    var s4 := ItemEffect(e, s3, d);
    assert items[1..] == [items[1], items[2], d] && items[2..] == [items[2], d] && items[3..] == [d];
    hide ItemEffect, ItemLaid;
    FourItems(e, EXAMPLE, s0, items);
  }

  lemma FourItems(e: Client, line: string, s0: Scan, items: seq<Item>)
    requires |items| == 4 && !s0.c.quit && s0.pos <= |line| && ItemLaid(e, line, s0, items[0])
    requires var s1 := ItemEffect(e, s0, items[0]);
             !s1.c.quit && s1.pos <= |line| && ItemLaid(e, line, s1, items[1]) &&
             var s2 := ItemEffect(e, s1, items[1]);
             !s2.c.quit && s2.pos <= |line| && ItemLaid(e, line, s2, items[2]) &&
             var s3 := ItemEffect(e, s2, items[2]);
             !s3.c.quit && s3.pos <= |line| && ItemLaid(e, line, s3, items[3])
    ensures Laid(e, line, s0, items)
    ensures ItemsEffect(e, s0, items) ==
            ItemEffect(e, ItemEffect(e, ItemEffect(e, ItemEffect(e, s0, items[0]), items[1]), items[2]), items[3])
  {
    hide ItemEffect, ItemLaid;
    var s1 := ItemEffect(e, s0, items[0]);
    var s2 := ItemEffect(e, s1, items[1]);
    var s3 := ItemEffect(e, s2, items[2]);
    assert items[1..][0] == items[1] && items[1..][1..] == items[2..] && items[2..][1..] == items[3..] && items[3..][1..] == [];
    assert Laid(e, line, ItemEffect(e, s3, items[3]), []);
    assert Laid(e, line, s3, items[3..]);
    assert Laid(e, line, s2, items[2..]);
    assert Laid(e, line, s1, items[1..]);
    OneItem(e, s3, items[3]);
    assert items[3..] == [items[3]];
    assert ItemsEffect(e, s2, items[2..]) == ItemsEffect(e, s3, items[3..]);
    assert ItemsEffect(e, s1, items[1..]) == ItemsEffect(e, s2, items[2..]);
  }

  lemma CommentSame(e: Client, s: Scan, body: string)
    requires !e.keepComments && s.special == NoSpecial && !s.c.quit && |body| == 1
    ensures var t := AfterComment(e, s, body);
            && t.pos == s.pos + 4 + |body| && t.special == NoSpecial && t.c == s.c.(buffer := s.c.buffer + s.out, comment := false)
            && t.out == "" && t.stop == s.stop
  {
    var o := StepOpen(e, s);
    assert At(body, 1) == NUL && BodyTaken(o.special, body) == 1 && body[1..] == "";
    assert Within(e, o, body) == Within(e, BodyStep(e, o, body), "") == BodyStep(e, o, body);
    assert s.c.buffer + s.out + "" == s.c.buffer + s.out;
  }

  /** The literal is sent as it is, and neither delimiter in a literal or a comment ends the statement. */
  lemma ExampleSent(e: Client, c: Carry)
    requires Fresh(c) && !e.keepComments
    ensures AddLine(e, c, EXAMPLE, false) == Send(e, c.(buffer := "a';'"))
    ensures AddLine(e, c, EXAMPLE, false).log == c.log + [Statement("a';'")]
  {
    hide Laid, ItemsEffect, Run, Send, FindCommand, AddLine, WriteAll, Joined, ItemEffect;
    var st := ExampleStatement();
    ExampleLaid(e, c);
    ExampleText();
    assert [st][1..] == [];
    assert Texts(false, Pen("", false, NoSpecial), [st]) == ["a';'"] by {
      assert "a';'" + "" + "" == "a';'";
      assert Texts(false, Pen("", true, NoSpecial), []) == [];
    }
    assert FindCommand(e, "a';'", ";") == None by {
      assert StartsAt("a';'", 2, ";") by { assert "a';'"[2..3] == ";"; }
      DelimitedLineNoCommand(e, "a';'", ";", 2);
    }
    SplitUndoesJoin(e, c, EXAMPLE, [st], false);
    assert ["a';'"][1..] == [];
    assert SendAll(e, Send(e, c.(buffer := "a';'")), []) == Send(e, c.(buffer := "a';'"));
    VisibleSent(e, c, "a';'");
  }

  lemma ExampleText()
    ensures WriteAll(false, Pen("", false, NoSpecial), ExampleStatement().pieces) == Pen("a';'", true, NoSpecial)
  {
    var ps := ExampleStatement().pieces;
    var p1 := Write(false, Pen("", false, NoSpecial), ps[0]);
    assert p1 == Pen("a", false, NoSpecial) by { assert "a"[1..] == "" && "" + ['a'] == "a"; }
    var text := ['\''] + ";" + ['\''];
    TextIsTrimmed(false, p1, text);
    assert "a" + text == "a';'";
    assert ps[1..] == [ps[1], ps[2]] && ps[1..][1..] == [ps[2]] && [ps[2]][1..] == [];
    var p2 := Write(false, p1, ps[1]);
    assert WriteAll(false, p2, [ps[2]]) == Write(false, p2, ps[2]);
    assert WriteAll(false, p1, ps[1..]) == WriteAll(false, p2, [ps[2]]);
  }
}
