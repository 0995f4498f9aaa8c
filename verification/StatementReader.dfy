/**
 The statement reader of the `mysql` client as it is written: one character
 array per line, read at `pos` and overwritten at `out`.

 Every branch of the loop is proved to do what the reference scanner does, so
 the in-place editing never destroys a character that is still to be read.
 */
module StatementReader {
  import opened Wrappers
  import opened StatementScanner

  class Reader {
    const e: Client

    // kept between lines
    var buffer: string
    var inString: char
    var mlComment: bool
    var delimiter: string
    var noEscapes: bool
    var log: seq<Action>
    var quit: bool

    // used inside a line
    var pos: nat
    var out: nat
    var needSpace: bool
    var special: SpecialComment
    var stop: bool

    constructor (e: Client, delimiter: string, noEscapes: bool)
      requires ValidDelimiter(delimiter)
      ensures this.e == e
      ensures Carried() == Carry("", NUL, false, delimiter, noEscapes, [], false)
    {
      this.e := e;
      buffer, inString, mlComment := "", NUL, false;
      this.delimiter, this.noEscapes, log, quit := delimiter, noEscapes, [], false;
      pos, out, needSpace, special, stop := 0, 0, false, NoSpecial, false;
    }

    ghost function Carried(): Carry
      reads this
    {
      Carry(buffer, inString, mlComment, delimiter, noEscapes, log, quit)
    }

    ghost function View(line: array<char>): Scan
      reads this, line
      requires out <= line.Length
    {
      Scan(Carried(), pos, line[..out], needSpace, special, stop)
    }

    /**
     The array still holds the original text from `pos` on, with its closing NUL,
     and `out`, plus a space that is still owed, has not passed `pos`.
     */
    ghost predicate Synced(line: array<char>, text: string)
      reads this, line
    {
      && NUL !in text
      && ValidDelimiter(delimiter)
      && line.Length == |text| + 1
      && pos <= |text|
      && out + (if needSpace then 1 else 0) <= pos
      && (forall k | pos <= k <= |text| :: line[k] == At(text, k))
    }

    // ----- commands -----------------------------------------------------------

    method RemoveCntrl()
      modifies this`buffer
      ensures buffer == RemoveControl(old(buffer)) && IsCut(buffer, old(buffer))
    {
      var end := |buffer|;
      assert buffer[..end] == buffer;
      while 0 < end && !(' ' < buffer[end - 1] && buffer[end - 1] != 127 as char)
        invariant 0 <= end <= |buffer|
        invariant RemoveControl(buffer[..end]) == RemoveControl(buffer)
      {
        assert buffer[..end][..end - 1] == buffer[..end - 1];
        end := end - 1;
      }
      buffer := buffer[..end];
    }

    method SendBuffer()
      modifies this`buffer, this`log, this`noEscapes, this`quit
      ensures Carried() == Send(e, old(Carried()))
    {
      RemoveCntrl();
      if buffer != "" {
        log := log + [Statement(buffer)];
        noEscapes, quit := e.reply(log).noEscapes, e.reply(log).quit;
        buffer := "";
      }
    }

    method Execute(command: Command, text: string)
      modifies this`buffer, this`log, this`noEscapes, this`quit, this`delimiter
      ensures Carried() == Perform(e, old(Carried()), command, text)
    {
      match command.kind {
        case Go => SendBuffer();
        case Clear => buffer := "";
        case SetDelimiter => delimiter := NewDelimiter(delimiter, e.argument(text));
        case Other =>
          log := log + [Ran(command, text)];
          noEscapes, quit := e.reply(log).noEscapes, e.reply(log).quit;
          buffer := e.edited(log, buffer);
      }
    }

    method CompleteStatement()
      modifies this`buffer, this`log, this`noEscapes, this`quit, this`delimiter
      ensures Carried() == Complete(e, old(Carried()))
    {
      match FindCommand(e, buffer, delimiter) {
        case Some(command) => Execute(command, buffer);
        case None => SendBuffer();
      }
      if !quit { buffer := ""; }
    }

    // ----- reading ahead --------------------------------------------------------

    method IsPrefix(line: array<char>, k: nat, part: string, ghost text: string) returns (b: bool)
      requires line.Length == |text| + 1 && k <= |text| && NUL !in text && NUL !in part
      requires forall j | k <= j <= |text| :: line[j] == At(text, j)
      ensures b == StartsAt(text, k, part)
    {
      var i := 0;
      while i < |part|
        invariant i <= |part| && k + i <= |text|
        invariant text[k..k + i] == part[..i]
      {
        if line[k + i] != part[i] {
          return false;
        }
        assert k + i < |text| by { assert part[i] != NUL; }
        i := i + 1;
      }
      return true;
    }

    /** `#`, or `--` before a blank (or, if `atEnd`, before the end of the line). */
    method CommentHere(line: array<char>, atEnd: bool, ghost text: string) returns (b: bool)
      requires Synced(line, text)
      ensures b == if atEnd then LineComment(text, pos) else TrailingComment(text, pos)
    {
      b := line[pos] == '#' ||
           (line[pos] == '-' && line[pos + 1] == '-' &&
            (IsSpace(line[pos + 2]) || (atEnd && line[pos + 2] == NUL)));
    }

    method SkipToCommentEnd(line: array<char>, from: nat, ghost text: string) returns (q: nat)
      requires line.Length == |text| + 1 && from <= |text| && NUL !in text
      requires forall j | from <= j <= |text| :: line[j] == At(text, j)
      ensures q == CommentEnd(text, from)
    {
      q := from;
      while line[q] != NUL && (line[q] != '*' || line[q + 1] != '/')
        invariant from <= q <= |text|
        invariant CommentEnd(text, q) == CommentEnd(text, from)
        decreases |text| - q
      {
        assert q < |text| && !StartsAt(text, q, "*/");
        q := q + 1;
      }
      assert q < |text| ==> q + 1 < |text| && text[q..q + 2] == "*/";
    }

    method SkipToDelimiter(line: array<char>, from: nat, ghost text: string) returns (q: nat)
      requires line.Length == |text| + 1 && from <= |text| && NUL !in text
      requires ValidDelimiter(delimiter)
      requires forall j | from <= j <= |text| :: line[j] == At(text, j)
      ensures q == AfterDelimiter(text, from, delimiter)
    {
      q := from;
      while line[q] != NUL
        invariant from <= q <= |text|
        invariant AfterDelimiter(text, q, delimiter) == AfterDelimiter(text, from, delimiter)
        decreases |text| - q
      {
        var found := IsPrefix(line, q, delimiter, text);
        if found { return q + |delimiter|; }
        q := q + 1;
      }
    }

    // ----- the branches of the loop ---------------------------------------------

    method Put(line: array<char>, ch: char)
      requires out < line.Length
      modifies this`out, line
      ensures out == old(out) + 1 && line[..out] == old(line[..out]) + [ch]
      ensures forall k | out <= k < line.Length :: line[k] == old(line[k])
    {
      line[out] := ch;
      out := out + 1;
    }

    method PutTwo(line: array<char>, first: char, second: char)
      requires out + 1 < line.Length
      modifies this`out, line
      ensures out == old(out) + 2 && line[..out] == old(line[..out]) + [first, second]
      ensures forall k | out <= k < line.Length :: line[k] == old(line[k])
    {
      Put(line, first);
      Put(line, second);
    }

    method FlushOut(line: array<char>)
      requires out <= line.Length
      modifies this`out, this`buffer
      ensures out == 0 && buffer == old(buffer) + old(line[..out])
    {
      if out != 0 {
        buffer := buffer + line[..out];
        out := 0;
      }
    }

    method DoBackslash(line: array<char>, ghost text: string)
      requires Synced(line, text) && pos < |text| && !quit && !stop
      modifies this, line
      ensures Synced(line, text)
      ensures View(line) == StepBackslash(e, text, old(View(line)))
    {
      hide Perform, AfterCommand;
      var n := pos + 1;
      var ch := line[n];
      if ch == NUL {
        pos, stop := n, true;
      } else if inString != NUL || ch == 'N' {
        if ch == '`' && inString == ch {
          Put(line, '\\');
          pos := n;
        } else {
          PutTwo(line, '\\', ch);
          pos := n + 1;
        }
      } else {
        match e.short(ch) {
          case Some(command) => ShortCommand(line, command, text);
          case None =>
            if e.errorsAreFatal {
              quit := true;
            } else {
              PutTwo(line, '\\', ch);
              pos := n + 1;
            }
        }
      }
    }

    method SkipParameters(line: array<char>, from: nat, command: Command, ghost text: string)
      requires line.Length == |text| + 1 && from <= |text| && NUL !in text
      requires ValidDelimiter(delimiter)
      requires forall j | from <= j <= |text| :: line[j] == At(text, j)
      modifies this`pos
      ensures pos == AfterCommand(text, from, command, special, delimiter)
    {
      if !command.takesParams {
        pos := from;
      } else if special != NoSpecial {
        pos := SkipToCommentEnd(line, from, text);
      } else {
        pos := SkipToDelimiter(line, from, text);
      }
    }

    method ShortCommand(line: array<char>, command: Command, ghost text: string)
      requires Synced(line, text) && pos + 1 < |text| && !quit && !stop
      requires inString == NUL && text[pos + 1] != 'N' && e.short(text[pos + 1]) == Some(command)
      modifies this
      ensures Synced(line, text)
      ensures View(line) == StepBackslash(e, text, old(View(line)))
    {
      hide Perform;
      var rest := line[pos..line.Length - 1];
      assert rest == text[pos..];
      FlushOut(line);
      Execute(command, rest);
      if !quit {
        SkipParameters(line, pos + 2, command, text);
      }
    }

    method CopySpaces(line: array<char>, ghost text: string)
      requires Synced(line, text)
      modifies this`pos, this`out, line
      ensures Synced(line, text)
      ensures pos == SkipSpaces(text, old(pos))
      ensures line[..out] == old(line[..out]) + text[old(pos)..pos]
    {
      ghost var start := pos;
      while IsSpace(line[pos])
        invariant Synced(line, text) && start <= pos
        invariant SkipSpaces(text, pos) == SkipSpaces(text, start)
        invariant line[..out] == old(line[..out]) + text[start..pos]
        decreases |text| - pos
      {
        assert pos < |text|;
        Put(line, line[pos]);
        pos := pos + 1;
      }
    }

    method PassDelimiter(line: array<char>, ghost text: string)
      requires Synced(line, text) && StartsAt(text, pos, delimiter)
      modifies this`pos, this`out, this`buffer, line
      ensures Synced(line, text)
      ensures View(line) == PastDelimiter(e, text, old(View(line)))
    {
      pos := pos + |delimiter|;
      ghost var p := pos;
      if e.keepComments {
        CopySpaces(line, text);
      }
      assert line[..out] == old(line[..out]) + text[p..pos];
      FlushOut(line);
    }

    method PassTrailingComment(line: array<char>, ghost text: string)
      requires Synced(line, text)
      modifies this`pos, this`buffer
      ensures Synced(line, text)
      ensures View(line) == PastTrailingComment(e, text, old(View(line)))
    {
      var comment := CommentHere(line, false, text);
      if e.keepComments && comment {
        assert line[pos..line.Length - 1] == text[pos..];
        buffer := buffer + line[pos..line.Length - 1];
        pos := line.Length - 1;
      }
    }

    method DoDelimiter(line: array<char>, ghost text: string)
      requires Synced(line, text) && pos < |text| && !quit && !stop
      requires StartsAt(text, pos, delimiter)
      modifies this, line
      ensures Synced(line, text)
      ensures View(line) == StepDelimiter(e, text, old(View(line)))
    {
      PassDelimiter(line, text);
      PassTrailingComment(line, text);
      CompleteStatement();
    }

    method DoLineComment(line: array<char>, ghost text: string)
      requires Synced(line, text) && pos < |text| && !quit && !stop
      modifies this
      ensures Synced(line, text)
      ensures View(line) == StepLineComment(e, text, old(View(line)))
    {
      FlushOut(line);
      stop := true;
      if e.keepComments {
        var startedWithNothing := buffer == "";
        assert line[pos..line.Length - 1] == text[pos..];
        buffer := buffer + line[pos..line.Length - 1];
        if startedWithNothing {
          SendBuffer();
        }
      }
    }

    method DoOpen(line: array<char>, ghost text: string)
      requires Synced(line, text) && StartsAt(text, pos, "/*")
      modifies this, line
      ensures Synced(line, text)
      ensures View(line) == StepOpen(e, old(View(line)))
    {
      if e.keepComments {
        PutTwo(line, '/', '*');
      }
      pos := pos + 2;
      mlComment := true;
      FlushOut(line);
    }

    method DoClose(line: array<char>, ghost text: string)
      requires Synced(line, text) && StartsAt(text, pos, "*/")
      modifies this, line
      ensures Synced(line, text)
      ensures View(line) == StepClose(e, old(View(line)))
    {
      if e.keepComments {
        PutTwo(line, '*', '/');
      }
      pos := pos + 2;
      mlComment := false;
      FlushOut(line);
      needSpace := true;
    }

    /** Which special comment and which quote are open after the current character. */
    method UpdateModes(line: array<char>, ghost text: string)
      requires Synced(line, text) && pos < |text|
      modifies this`special, this`inString
      ensures special == SpecialAfter(text, old(View(line)))
      ensures inString == QuoteAfter(old(View(line)), special, text[pos])
    {
      var ch := line[pos];
      if inString == NUL && ch == '/' && line[pos + 1] == '*' {
        if line[pos + 2] == '!' {
          special := Conditional;
        } else if line[pos + 2] == '+' {
          special := Hint;
        }
      } else if inString == NUL && special != NoSpecial && ch == '*' && line[pos + 1] == '/' {
        special := NoSpecial;
      }
      if ch == inString {
        inString := NUL;
      } else if !mlComment && inString == NUL && special != Hint && IsQuote(ch) {
        inString := ch;
      }
    }

    method DoKeep(line: array<char>, ghost text: string)
      requires Synced(line, text) && pos < |text|
      modifies this, line
      ensures Synced(line, text)
      ensures View(line) == StepKeep(e, text, old(View(line)))
    {
      var ch := line[pos];
      UpdateModes(line, text);
      pos := pos + 1;
      if !mlComment || e.keepComments {
        if needSpace && !IsSpace(ch) {
          PutTwo(line, ' ', ch);
        } else {
          Put(line, ch);
        }
        needSpace := false;
      }
    }

    // ----- the loop -------------------------------------------------------------

    method Classify(line: array<char>, ghost text: string) returns (b: Branch)
      requires Synced(line, text) && pos < |text|
      ensures b == BranchAt(e, text, View(line))
    {
      var ch := line[pos];
      if !e.keepComments && IsSpace(ch) && out == 0 && buffer == "" {
        return Branch.Skip;
      }
      if !mlComment && ch == '\\' && !(inString != NUL && noEscapes) {
        return Branch.Backslash;
      }
      if !mlComment && inString == NUL && special != Hint {
        var found := IsPrefix(line, pos, delimiter, text);
        if found { return Branch.Delimiter; }
      }
      var comment := CommentHere(line, true, text);
      if !mlComment && inString == NUL && comment {
        return Branch.ToEnd;
      }
      if inString == NUL && ch == '/' && line[pos + 1] == '*' &&
         line[pos + 2] != '!' && line[pos + 2] != '+' && special != Hint {
        return Branch.Open;
      }
      if mlComment && special == NoSpecial && ch == '*' && line[pos + 1] == '/' {
        return Branch.Close;
      }
      return Branch.Keep;
    }

    method Iterate(line: array<char>, ghost text: string)
      requires Synced(line, text) && pos < |text| && !quit && !stop
      modifies this, line
      ensures Synced(line, text)
      ensures View(line) == Step(e, text, old(View(line)))
    {
      var b := Classify(line, text);
      match b {
        case Skip => pos := pos + 1;
        case Backslash => DoBackslash(line, text);
        case Delimiter => DoDelimiter(line, text);
        case ToEnd => DoLineComment(line, text);
        case Open => DoOpen(line, text);
        case Close => DoClose(line, text);
        case Keep => DoKeep(line, text);
      }
    }

    /** The final characters, and the newline, which always fits where the NUL was. */
    method FinishLine(line: array<char>, truncated: bool, ghost text: string)
      requires Synced(line, text)
      modifies this`buffer, this`out, line
      ensures Carried() == Finish(e, old(View(line)), truncated)
    {
      if !quit && (out != 0 || buffer != "") {
        if !truncated && (!IsDelimiterCommand(line[..out]) || inString != NUL || mlComment) {
          Put(line, '\n');
        }
        if !mlComment || e.keepComments {
          buffer := buffer + line[..out];
        }
      }
    }

    /** `add_line`: editing in place gives exactly what the reference scanner gives. */
    method AddLineInPlace(line: array<char>, truncated: bool, ghost text: string)
      requires NUL !in text && line.Length == |text| + 1 && line[..] == text + [NUL]
      requires ValidDelimiter(delimiter) && !quit
      modifies this, line
      ensures Carried() == AddLine(e, old(Carried()), text, truncated)
    {
      if line[0] == NUL && buffer == "" {
        assert text == "" by { assert line[..][0] == (text + [NUL])[0]; }
        return;
      }
      assert text == "" ==> line[..][0] == NUL;
      pos, out, needSpace, special, stop := 0, 0, false, NoSpecial, false;
      forall k | 0 <= k <= |text| ensures line[k] == At(text, k) {
        assert line[..][k] == (text + [NUL])[k];
      }
      assert line[..0] == "";
      while pos < line.Length - 1 && !stop && !quit
        invariant Synced(line, text)
        invariant Run(e, text, View(line)) == Run(e, text, Begin(old(Carried())))
        decreases |text| - pos, if stop || quit then 0 else 1
      {
        Iterate(line, text);
      }
      FinishLine(line, truncated, text);
    }

    /** One turn of the loop of `read_and_execute`. */
    method ReadLine(line: array<char>, truncated: bool, ghost text: string)
      requires NUL !in text && line.Length == |text| + 1 && line[..] == text + [NUL]
      requires ValidDelimiter(delimiter) && !quit
      modifies this, line
      ensures Carried() == ReadInput(e, old(Carried()), Line(text, truncated))
    {
      var given := line[..line.Length - 1];
      assert given == text;
      if (e.namedCommands || buffer == "") && !mlComment && inString == NUL {
        match FindCommand(e, given, delimiter) {
          case Some(command) =>
            Execute(command, given);
            if buffer == "" { inString := NUL; }
            return;
          case None =>
        }
      }
      AddLineInPlace(line, truncated, text);
    }

    method ResetPrompt()
      requires ValidDelimiter(delimiter)
      modifies this`buffer, this`mlComment, this`inString
      ensures Carried() == ReadInput(e, old(Carried()), Interrupt)
    {
      buffer, mlComment, inString := "", false, NUL;
    }

    /** `read_and_execute`: a whole session of lines and interrupts. */
    method Session(inputs: seq<Input>)
      requires ValidDelimiter(delimiter)
      requires forall i | i in inputs && i.Line? :: NUL !in i.text
      modifies this
      ensures Carried() == ReadAll(e, old(Carried()), inputs)
    {
      var k := 0;
      while k < |inputs| && !quit
        invariant 0 <= k <= |inputs|
        invariant ValidDelimiter(delimiter)
        invariant ReadAll(e, Carried(), inputs[k..]) == ReadAll(e, old(Carried()), inputs)
      {
        match inputs[k] {
          case Interrupt => ResetPrompt();
          case Line(text, truncated) =>
            var padded := text + [NUL];
            var line := new char[|padded|](i requires 0 <= i < |padded| => padded[i]);
            assert line[..] == padded;
            ReadLine(line, truncated, text);
        }
        assert inputs[k..][1..] == inputs[k + 1..];
        k := k + 1;
      }
    }
  }
}
