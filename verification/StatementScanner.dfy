/**
 Reference scanner for the statement reader of the `mysql` client.

 The scanner reads an immutable line and collects the characters it keeps in a
 separate output string.  `StatementReader` edits the line in place instead and
 is proved equal to this scanner.

 Characters are single bytes; a line holds no NUL, and reading one position past
 its end yields NUL, as in a C string.
 */
module StatementScanner {
  import opened Wrappers

  const NUL: char := '\0'
  const DELIMITER_NAME := "delimiter"
  const MAX_DELIMITER := 15

  predicate IsSpace(ch: char) {
    ch == ' ' || ch == '\t' || ch == '\n' || ch == '\r' || ch == 11 as char || ch == 12 as char
  }

  predicate IsQuote(ch: char) {
    ch == '\'' || ch == '"' || ch == '`'
  }

  function ToLower(ch: char): char {
    if 'A' <= ch <= 'Z' then (ch as int + 32) as char else ch
  }

  /** The character at position `k`, NUL past the end. */
  function At(line: string, k: nat): char {
    if k < |line| then line[k] else NUL
  }

  predicate StartsAt(line: string, k: nat, text: string) {
    k + |text| <= |line| && line[k..k + |text|] == text
  }

  // ----- what the scanner is run with ---------------------------------------

  datatype Kind = Go | Clear | SetDelimiter | Other

  datatype Command = Command(kind: Kind, cmdChar: char, takesParams: bool)

  /** What leaves the reader: statements sent to the server, client commands run. */
  datatype Action = Statement(text: string) | Ran(command: Command, text: string)

  datatype Reply = Reply(quit: bool, noEscapes: bool)

  type CString = s: string | NUL !in s witness ""

  /**
   The surroundings of the reader.  `reply` is what the server (or a command)
   answers after the given actions, `edited` the statement buffer it leaves.
   */
  datatype Client = Client(
    keepComments: bool,
    errorsAreFatal: bool,
    namedCommands: bool,
    short: char -> Option<Command>,
    table: (string, bool) -> Option<Command>,
    argument: string -> CString,
    reply: seq<Action> -> Reply,
    edited: (seq<Action>, string) -> string)

  // ----- state ---------------------------------------------------------------

  /** What survives from one line to the next. */
  datatype Carry = Carry(
    buffer: string,
    quote: char,
    comment: bool,
    delimiter: string,
    noEscapes: bool,
    log: seq<Action>,
    quit: bool)

  datatype SpecialComment = NoSpecial | Conditional | Hint

  /** The state inside one line. */
  datatype Scan = Scan(
    c: Carry,
    pos: nat,
    out: string,
    space: bool,
    special: SpecialComment,
    stop: bool)

  predicate ValidDelimiter(d: string) {
    d != "" && NUL !in d && '\\' !in d
  }

  // ----- commands -------------------------------------------------------------

  /** A character that prints something: neither a blank nor a control character. */
  predicate Visible(ch: char) {
    33 <= ch as int != 127
  }

  /** What is left of a text whose end is cut back to its last visible character. */
  predicate IsCut(r: string, text: string) {
    r <= text && (r != "" ==> Visible(r[|r| - 1])) && forall k | |r| <= k < |text| :: !Visible(text[k])
  }

  function RemoveControl(text: string): (r: string)
    ensures IsCut(r, text)
  {
    if text == "" || (' ' < text[|text| - 1] && text[|text| - 1] != 127 as char) then text
    else RemoveControl(text[..|text| - 1])
  }

  /** `com_go`: send the buffered statement, if anything is left of it. */
  function Send(e: Client, c: Carry): Carry {
    var text := RemoveControl(c.buffer);
    if text == "" then c.(buffer := "")
    else
      var log := c.log + [Statement(text)];
      var r := e.reply(log);
      c.(buffer := "", log := log, noEscapes := r.noEscapes, quit := r.quit)
  }

  function NewDelimiter(current: string, argument: CString): (d: string)
    ensures ValidDelimiter(current) ==> ValidDelimiter(d)
  {
    if argument == "" || '\\' in argument then current
    else argument[..if |argument| < MAX_DELIMITER then |argument| else MAX_DELIMITER]
  }

  function Perform(e: Client, c: Carry, command: Command, text: string): (r: Carry)
    ensures ValidDelimiter(c.delimiter) ==> ValidDelimiter(r.delimiter)
    ensures r.quote == c.quote && r.comment == c.comment
  {
    match command.kind
    case Go => Send(e, c)
    case Clear => c.(buffer := "")
    case SetDelimiter => c.(delimiter := NewDelimiter(c.delimiter, e.argument(text)))
    case Other =>
      var log := c.log + [Ran(command, text)];
      var r := e.reply(log);
      c.(buffer := e.edited(log, c.buffer), log := log, noEscapes := r.noEscapes, quit := r.quit)
  }

  function SkipSpaces(line: string, k: nat): (q: nat)
    requires k <= |line|
    ensures k <= q <= |line|
    decreases |line| - k
  {
    if k < |line| && IsSpace(line[k]) then SkipSpaces(line, k + 1) else k
  }

  /** `strstr`: the part occurs at or after position `k`. */
  predicate Contains(text: string, part: string, k: nat)
    decreases |text| - k
  {
    k + |part| <= |text| && (StartsAt(text, k, part) || (k < |text| && Contains(text, part, k + 1)))
  }

  predicate IsDelimiterCommand(text: string) {
    |text| >= |DELIMITER_NAME| &&
    forall k | 0 <= k < |DELIMITER_NAME| :: ToLower(text[k]) == DELIMITER_NAME[k]
  }

  function WordEnd(text: string, k: nat): (q: nat)
    requires k <= |text|
    ensures k <= q <= |text|
    decreases |text| - k
  {
    if k < |text| && text[k] != ' ' && text[k] != '\t' then WordEnd(text, k + 1) else k
  }

  /** `find_command(char *)`: a named command, unless the text must be scanned. */
  function FindCommand(e: Client, text: string, delimiter: string): Option<Command> {
    var name := text[SkipSpaces(text, 0)..];
    if Contains(name, "\\g", 0) || (Contains(name, delimiter, 0) && !IsDelimiterCommand(name)) then None
    else
      var w := WordEnd(name, 0);
      e.table(name[..w], SkipSpaces(name, w) < |name|)
  }

  // ----- one step -------------------------------------------------------------

  /** A step keeps the delimiter usable and moves forward inside the line, or ends the loop. */
  predicate Advances(line: string, s: Scan, t: Scan) {
    ValidDelimiter(s.c.delimiter) ==>
      ValidDelimiter(t.c.delimiter) && s.pos <= t.pos <= |line| && (s.pos < t.pos || t.stop || t.c.quit)
  }

  function Flush(s: Scan): Scan {
    s.(c := s.c.(buffer := s.c.buffer + s.out), out := "")
  }

  /** The first position at or after `k` that starts a comment end, or the end of the line. */
  function CommentEnd(line: string, k: nat): (q: nat)
    requires k <= |line|
    ensures k <= q <= |line|
    decreases |line| - k
  {
    if k == |line| || StartsAt(line, k, "*/") then k else CommentEnd(line, k + 1)
  }

  /** The position just after the next delimiter at or after `k`, or the end of the line. */
  function AfterDelimiter(line: string, k: nat, d: string): (q: nat)
    requires k <= |line|
    ensures k <= q <= |line|
    decreases |line| - k
  {
    if k == |line| then k
    else if StartsAt(line, k, d) then k + |d|
    else AfterDelimiter(line, k + 1, d)
  }

  function AfterCommand(line: string, k: nat, command: Command, special: SpecialComment, d: string): (q: nat)
    requires k <= |line|
    ensures k <= q <= |line|
  {
    if !command.takesParams then k
    else if special != NoSpecial then CommentEnd(line, k)
    else AfterDelimiter(line, k, d)
  }

  function StepBackslash(e: Client, line: string, s: Scan): (t: Scan)
    requires s.pos < |line|
    ensures Advances(line, s, t)
  {
    var n := s.pos + 1;
    if n == |line| then s.(pos := n, stop := true)
    else
      var ch := line[n];
      if s.c.quote != NUL || ch == 'N' then
        if ch == '`' && s.c.quote == ch then s.(out := s.out + ['\\'], pos := n)
        else s.(out := s.out + ['\\', ch], pos := n + 1)
      else
        match e.short(ch)
        case None =>
          if e.errorsAreFatal then s.(c := s.c.(quit := true))
          else s.(out := s.out + ['\\', ch], pos := n + 1)
        case Some(command) =>
          var f := Flush(s);
          var c := Perform(e, f.c, command, line[s.pos..]);
          if c.quit then f.(c := c)
          else f.(c := c, pos := AfterCommand(line, n + 1, command, s.special, c.delimiter))
  }

  predicate TrailingComment(line: string, k: nat) {
    At(line, k) == '#' || (At(line, k) == '-' && At(line, k + 1) == '-' && IsSpace(At(line, k + 2)))
  }

  predicate LineComment(line: string, k: nat) {
    TrailingComment(line, k) || (At(line, k) == '-' && At(line, k + 1) == '-' && At(line, k + 2) == NUL)
  }

  /** The statement is complete: run it as a named command or send it. */
  function Complete(e: Client, c: Carry): (r: Carry)
    ensures ValidDelimiter(c.delimiter) ==> ValidDelimiter(r.delimiter)
    ensures r.quote == c.quote && r.comment == c.comment
    ensures !r.quit ==> r.buffer == ""
  {
    var r := match FindCommand(e, c.buffer, c.delimiter)
      case Some(command) => Perform(e, c, command, c.buffer)
      case None => Send(e, c);
    if r.quit then r else r.(buffer := "")
  }

  /** Behind the delimiter; with `--comments` also behind the blanks that follow it, which are kept. */
  function PastDelimiter(e: Client, line: string, s: Scan): (t: Scan)
    requires StartsAt(line, s.pos, s.c.delimiter)
    ensures s.pos + |s.c.delimiter| <= t.pos <= |line|
  {
    var p := s.pos + |s.c.delimiter|;
    var q := if e.keepComments then SkipSpaces(line, p) else p;
    Flush(s.(out := s.out + line[p..q], pos := q))
  }

  /** With `--comments` a comment behind the delimiter belongs to the statement. */
  function PastTrailingComment(e: Client, line: string, s: Scan): (t: Scan)
    requires s.pos <= |line|
    ensures s.pos <= t.pos <= |line|
  {
    if e.keepComments && TrailingComment(line, s.pos) then
      s.(c := s.c.(buffer := s.c.buffer + line[s.pos..]), pos := |line|)
    else s
  }

  function StepDelimiter(e: Client, line: string, s: Scan): (t: Scan)
    requires StartsAt(line, s.pos, s.c.delimiter)
    ensures Advances(line, s, t)
  {
    var f := PastTrailingComment(e, line, PastDelimiter(e, line, s));
    f.(c := Complete(e, f.c))
  }

  function StepLineComment(e: Client, line: string, s: Scan): (t: Scan)
    requires s.pos < |line|
    ensures Advances(line, s, t)
  {
    var f := Flush(s).(stop := true);
    if !e.keepComments then f
    else
      var c := f.c.(buffer := f.c.buffer + line[s.pos..]);
      if f.c.buffer != "" then f.(c := c)
      else
        var sent := Send(e, c);
        f.(c := sent)
  }

  function StepOpen(e: Client, s: Scan): Scan {
    Flush(s.(out := if e.keepComments then s.out + ['/', '*'] else s.out,
             pos := s.pos + 2, c := s.c.(comment := true)))
  }

  function StepClose(e: Client, s: Scan): Scan {
    Flush(s.(out := if e.keepComments then s.out + ['*', '/'] else s.out,
             pos := s.pos + 2, c := s.c.(comment := false), space := true))
  }

  function SpecialAfter(line: string, s: Scan): SpecialComment
    requires s.pos < |line|
  {
    if s.c.quote == NUL && line[s.pos] == '/' && At(line, s.pos + 1) == '*' then
      if At(line, s.pos + 2) == '!' then Conditional
      else if At(line, s.pos + 2) == '+' then Hint
      else s.special
    else if s.c.quote == NUL && s.special != NoSpecial && line[s.pos] == '*' && At(line, s.pos + 1) == '/' then NoSpecial
    else s.special
  }

  function QuoteAfter(s: Scan, special: SpecialComment, ch: char): char {
    if ch == s.c.quote then NUL
    else if !s.c.comment && s.c.quote == NUL && special != Hint && IsQuote(ch) then ch
    else s.c.quote
  }

  function StepKeep(e: Client, line: string, s: Scan): (t: Scan)
    requires s.pos < |line|
    ensures Advances(line, s, t)
  {
    var ch := line[s.pos];
    var special := SpecialAfter(line, s);
    var kept := s.(pos := s.pos + 1, special := special, c := s.c.(quote := QuoteAfter(s, special, ch)));
    if s.c.comment && !e.keepComments then kept
    else kept.(out := s.out + (if s.space && !IsSpace(ch) then [' ', ch] else [ch]), space := false)
  }

  predicate SkipsSpace(e: Client, line: string, s: Scan)
    requires s.pos < |line|
  {
    !e.keepComments && IsSpace(line[s.pos]) && s.out == "" && s.c.buffer == ""
  }

  predicate AtBackslash(line: string, s: Scan)
    requires s.pos < |line|
  {
    !s.c.comment && line[s.pos] == '\\' && !(s.c.quote != NUL && s.c.noEscapes)
  }

  predicate AtDelimiter(line: string, s: Scan) {
    !s.c.comment && s.c.quote == NUL && s.special != Hint && StartsAt(line, s.pos, s.c.delimiter)
  }

  predicate AtLineComment(line: string, s: Scan) {
    !s.c.comment && s.c.quote == NUL && LineComment(line, s.pos)
  }

  predicate AtOpen(line: string, s: Scan) {
    s.c.quote == NUL && At(line, s.pos) == '/' && At(line, s.pos + 1) == '*' &&
    At(line, s.pos + 2) != '!' && At(line, s.pos + 2) != '+' && s.special != Hint
  }

  predicate AtClose(line: string, s: Scan) {
    s.c.comment && s.special == NoSpecial && At(line, s.pos) == '*' && At(line, s.pos + 1) == '/'
  }

  datatype Branch = Skip | Backslash | Delimiter | ToEnd | Open | Close | Keep

  /** Which branch of the loop of `add_line` handles the current character. */
  function BranchAt(e: Client, line: string, s: Scan): Branch
    requires s.pos < |line|
  {
    if SkipsSpace(e, line, s) then Skip
    else if AtBackslash(line, s) then Backslash
    else if AtDelimiter(line, s) then Delimiter
    else if AtLineComment(line, s) then ToEnd
    else if AtOpen(line, s) then Open
    else if AtClose(line, s) then Close
    else Keep
  }

  /** One iteration of the loop of `add_line`. */
  function Step(e: Client, line: string, s: Scan): (t: Scan)
    requires s.pos < |line|
    ensures Advances(line, s, t)
  {
    match BranchAt(e, line, s)
    case Skip => s.(pos := s.pos + 1)
    case Backslash => StepBackslash(e, line, s)
    case Delimiter => StepDelimiter(e, line, s)
    case ToEnd => StepLineComment(e, line, s)
    case Open => StepOpen(e, s)
    case Close => StepClose(e, s)
    case Keep => StepKeep(e, line, s)
  }

  predicate Halted(line: string, s: Scan) {
    s.pos >= |line| || s.stop || s.c.quit
  }

  /** The loop of `add_line`, from any state to its end. */
  function Run(e: Client, line: string, s: Scan): (r: Scan)
    requires ValidDelimiter(s.c.delimiter)
    ensures ValidDelimiter(r.c.delimiter)
    ensures Halted(line, r)
    decreases |line| - s.pos, if Halted(line, s) then 0 else 1
  {
    if Halted(line, s) then s
    else Run(e, line, Step(e, line, s))
  }

  function Begin(c: Carry): Scan {
    Scan(c, 0, "", false, NoSpecial, false)
  }

  /** The tail of `add_line`: the rest of the line, and its newline, join the buffer. */
  function Finish(e: Client, s: Scan, truncated: bool): Carry {
    if s.c.quit || (s.out == "" && s.c.buffer == "") then s.c
    else
      var newline := !truncated && (!IsDelimiterCommand(s.out) || s.c.quote != NUL || s.c.comment);
      if s.c.comment && !e.keepComments then s.c
      else s.c.(buffer := s.c.buffer + s.out + if newline then ['\n'] else "")
  }

  function AddLine(e: Client, c: Carry, line: string, truncated: bool): Carry
    requires ValidDelimiter(c.delimiter)
  {
    if line == "" && c.buffer == "" then c
    else Finish(e, Run(e, line, Begin(c)), truncated)
  }

  // ----- whole sessions -------------------------------------------------------

  datatype Input = Line(text: string, truncated: bool) | Interrupt

  /** One turn of the loop of `read_and_execute`. */
  function ReadInput(e: Client, c: Carry, i: Input): (r: Carry)
    requires ValidDelimiter(c.delimiter)
    ensures ValidDelimiter(r.delimiter)
  {
    match i
    case Interrupt => c.(buffer := "", comment := false, quote := NUL)
    case Line(text, truncated) =>
      if (e.namedCommands || c.buffer == "") && !c.comment && c.quote == NUL
         && FindCommand(e, text, c.delimiter).Some?
      then
        var p := Perform(e, c, FindCommand(e, text, c.delimiter).value, text);
        if p.buffer == "" then p.(quote := NUL) else p
      else AddLine(e, c, text, truncated)
  }

  function ReadAll(e: Client, c: Carry, inputs: seq<Input>): (r: Carry)
    requires ValidDelimiter(c.delimiter)
    ensures ValidDelimiter(r.delimiter)
    decreases |inputs|
  {
    if inputs == [] || c.quit then c
    else ReadAll(e, ReadInput(e, c, inputs[0]), inputs[1..])
  }
}
