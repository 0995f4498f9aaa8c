/**
 Quoting in `mysqldump` and `mysqlimport`, proved against what a server does with
 the text: reading a string literal, and matching a LIKE pattern byte by byte.
 */
module SqlQuoting {
  import opened Wrappers
  import opened Sequences

  const NUL: char := '\0'

  // ----- the server's side ----------------------------------------------------------------------

  /** What a backslash and the character behind it stand for; `\%` and `\_` are left for LIKE. */
  function Escape(ch: char): string {
    match ch
    case 'n' => "\n"
    case 't' => "\t"
    case 'r' => "\r"
    case 'b' => [8 as char]
    case '0' => [NUL]
    case 'Z' => [26 as char]
    case '%' => ['\\', '%']
    case '_' => ['\\', '_']
    case _ => [ch]
  }

  datatype Lexed = Lexed(value: string, consumed: nat)

  function Prepend(first: string, n: nat, rest: Option<Lexed>): Option<Lexed> {
    match rest
    case None => None
    case Some(l) => Some(Lexed(first + l.value, n + l.consumed))
  }

  /** Reads a literal behind its opening quote: its value, and how far it goes, closing quote included. */
  function Lex(s: string): Option<Lexed> {
    if s == "" then None
    else if s[0] == '\'' then
      if |s| > 1 && s[1] == '\'' then Prepend("'", 2, Lex(s[2..])) else Some(Lexed("", 1))
    else if s[0] == '\\' then
      if |s| == 1 then None else Prepend(Escape(s[1]), 2, Lex(s[2..]))
    else Prepend([s[0]], 1, Lex(s[1..]))
  }

  lemma LexPair(ch: char, rest: string)
    ensures Lex(['\\', ch] + rest) == Prepend(Escape(ch), 2, Lex(rest))
  {
    assert (['\\', ch] + rest)[2..] == rest;
  }

  lemma LexQuotes(rest: string)
    ensures Lex("''" + rest) == Prepend("'", 2, Lex(rest))
  {
    assert ("''" + rest)[2..] == rest;
  }

  lemma LexPlain(ch: char, rest: string)
    requires ch != '\'' && ch != '\\'
    ensures Lex([ch] + rest) == Prepend([ch], 1, Lex(rest))
  {
    assert ([ch] + rest)[1..] == rest;
  }

  /** LIKE, with the backslash as its escape character. */
  predicate Like(pattern: string, text: string)
    decreases |pattern| + |text|
  {
    if pattern == "" then text == ""
    else if pattern[0] == '%' then Like(pattern[1..], text) || (text != "" && Like(pattern, text[1..]))
    else if text == "" then false
    else if pattern[0] == '_' then Like(pattern[1..], text[1..])
    else if pattern[0] == '\\' && |pattern| > 1 then text[0] == pattern[1] && Like(pattern[2..], text[1..])
    else text[0] == pattern[0] && Like(pattern[1..], text[1..])
  }

  // ----- names in LIKE patterns --------------------------------------------------------------------

  /** What `quote_for_like` writes for one character. */
  function LikeChar(ch: char): string {
    if ch == '\\' then "\\\\\\\\"
    else if ch == '\'' || ch == '_' || ch == '%' then ['\\', ch]
    else [ch]
  }

  function LikeBody(name: string): string {
    if name == "" then "" else LikeChar(name[0]) + LikeBody(name[1..])
  }

  /** The pattern the server sees after reading the literal. */
  function LikePattern(name: string): string {
    if name == "" then ""
    else (if name[0] == '\\' || name[0] == '_' || name[0] == '%' then ['\\', name[0]] else [name[0]])
         + LikePattern(name[1..])
  }

  lemma LexEnd()
    ensures Lex("" + "'") == Some(Lexed("", 1))
  {
  }

  lemma LikeBackslash(rest: string)
    ensures Lex(LikeChar('\\') + rest) == Prepend("\\\\", 4, Lex(rest))
  {
    hide Lex;
    assert LikeChar('\\') + rest == ['\\', '\\'] + (['\\', '\\'] + rest);
    LexPair('\\', rest);
    LexPair('\\', ['\\', '\\'] + rest);
    if Lex(rest).Some? {
      var v := Lex(rest).value.value;
      assert "\\" + ("\\" + v) == "\\\\" + v;
    }
  }

  lemma {:induction false} LikeLexes(name: string)
    ensures Lex(LikeBody(name) + "'") == Some(Lexed(LikePattern(name), |LikeBody(name)| + 1))
  {
    hide Lex;
    if name == "" {
      LexEnd();
    } else {
      var ch := name[0];
      var rest := LikeBody(name[1..]) + "'";
      LikeLexes(name[1..]);
      assert LikeBody(name) + "'" == LikeChar(ch) + rest;
      if ch == '\\' {
        LikeBackslash(rest);
      } else if ch == '\'' || ch == '_' || ch == '%' {
        LexPair(ch, rest);
      } else {
        LexPlain(ch, rest);
      }
    }
  }

  lemma {:induction false} PatternMatchesOnly(name: string, text: string)
    ensures Like(LikePattern(name), text) <==> text == name
    decreases |name|
  {
    if name != "" && text != "" {
      var p := LikePattern(name);
      var k := if name[0] == '\\' || name[0] == '_' || name[0] == '%' then 2 else 1;
      assert p[k..] == LikePattern(name[1..]);
      PatternMatchesOnly(name[1..], text[1..]);
      assert text == name <==> text[0] == name[0] && text[1..] == name[1..] by {
        assert text == [text[0]] + text[1..] && name == [name[0]] + name[1..];
      }
    }
  }

  lemma {:induction false} LikeBodyLength(name: string)
    ensures |LikeBody(name)| <= 4 * |name|
  {
    if name != "" { LikeBodyLength(name[1..]); }
  }

  /** The quoted name is one literal, and as a LIKE pattern it matches the name and nothing else. */
  lemma QuotedNameMatchesOnlyItself(name: string, text: string)
    ensures var r := Lex(LikeBody(name) + "'");
            && r.Some? && r.value.consumed == |LikeBody(name)| + 1
            && (Like(r.value.value, text) <==> text == name)
    ensures |LikeBody(name)| + 2 <= 4 * |name| + 2
  {
    LikeLexes(name);
    PatternMatchesOnly(name, text);
    LikeBodyLength(name);
  }

  lemma {:induction false} LikeBodySnoc(name: string, k: nat)
    requires k < |name|
    ensures LikeBody(name[..k + 1]) == LikeBody(name[..k]) + LikeChar(name[k])
    decreases k
  {
    var n := name[..k + 1];
    if k == 0 {
      assert n[1..] == "" && LikeBody("") == "";
      assert LikeBody(n) == LikeChar(n[0]) + "";
    } else {
      LikeBodySnoc(name[1..], k - 1);
      assert n[1..] == name[1..][..k] && name[..k][1..] == name[1..][..k - 1];
      assert LikeChar(name[0]) + (LikeBody(name[..k][1..]) + LikeChar(name[k]))
          == LikeChar(name[0]) + LikeBody(name[..k][1..]) + LikeChar(name[k]);
    }
  }

  /** `*to++= ch` */
  method Put(buff: array<char>, to: nat, ch: char) returns (next: nat)
    requires to < buff.Length
    modifies buff
    ensures next == to + 1 && buff[..next] == old(buff[..to]) + [ch]
  {
    buff[to] := ch;
    next := to + 1;
  }

  method PutForLike(buff: array<char>, to: nat, ch: char) returns (next: nat)
    requires to + 4 <= buff.Length
    modifies buff
    ensures next <= to + 4 && buff[..next] == old(buff[..to]) + LikeChar(ch)
  {
    next := to;
    if ch == '\\' {
      next := Put(buff, next, '\\');
      next := Put(buff, next, '\\');
      next := Put(buff, next, '\\');
    } else if ch == '\'' || ch == '_' || ch == '%' {
      next := Put(buff, next, '\\');
    }
    next := Put(buff, next, ch);
  }

  /** `quote_for_like`: the buffer holds the literal and its NUL. */
  method QuoteForLike(name: string, buff: array<char>) returns (length: nat)
    requires buff.Length >= 4 * |name| + 3
    modifies buff
    ensures length < buff.Length && buff[length] == NUL
    ensures buff[..length] == "'" + LikeBody(name) + "'"
  {
    var to := Put(buff, 0, '\'');
    var i := 0;
    while i < |name|
      invariant 0 <= i <= |name| && 1 <= to <= 4 * i + 1
      invariant buff[..to] == "'" + LikeBody(name[..i])
    {
      to := PutForLike(buff, to, name[i]);
      LikeBodySnoc(name, i);
      i := i + 1;
    }
    assert name[..i] == name;
    length := Put(buff, to, '\'');
    buff[length] := NUL;
  }

  // ----- field terminators and the like --------------------------------------------------------------

  /** What `field_escape` makes of the text when `odd` backslashes stand open before it. */
  function FieldEscaped(from: string, odd: bool): string {
    if from == "" then (if odd then "\\" else "")
    else if from[0] == '\\' then ['\\'] + FieldEscaped(from[1..], !odd)
    else if from[0] == '\'' && !odd then "''" + FieldEscaped(from[1..], false)
    else [from[0]] + FieldEscaped(from[1..], false)
  }

  /** What the user meant: backslash pairs, a quote for itself, a last lone backslash for itself. */
  function Meaning(from: string): string {
    if from == "" then ""
    else if from[0] != '\\' then [from[0]] + Meaning(from[1..])
    else if |from| == 1 then "\\"
    else Escape(from[1]) + Meaning(from[2..])
  }

  lemma LoneBackslash(from: string, rest: string)
    requires from == ['\\'] && (rest == "" || rest[0] != '\'')
    ensures Lex(FieldEscaped(from, false) + "'" + rest) == Some(Lexed(Meaning(from), |FieldEscaped(from, false)| + 1))
  {
    assert FieldEscaped(from[1..], true) == ['\\'];
    var s := FieldEscaped(from, false) + "'" + rest;
    assert s[0] == '\\' && s[1] == '\\' && s[2..] == "'" + rest;
    assert Lex(s[2..]) == Some(Lexed("", 1));
    assert Escape('\\') + "" == Meaning(from);
  }

  /**
   Between quotes the escaped text is exactly one literal, whatever follows it,
   and its value is what the user meant.
   */
  lemma {:induction false} FieldLexes(from: string, rest: string)
    requires rest == "" || rest[0] != '\''
    ensures Lex(FieldEscaped(from, false) + "'" + rest) == Some(Lexed(Meaning(from), |FieldEscaped(from, false)| + 1))
    decreases |from|
  {
    if from == "" {
      assert FieldEscaped(from, false) + "'" + rest == "'" + rest;
    } else if from == ['\\'] {
      LoneBackslash(from, rest);
    } else {
      var k := if from[0] == '\\' then 2 else 1;
      var tail := FieldEscaped(from[k..], false);
      FieldHead(from);
      FieldLexes(from[k..], rest);
      if from[0] == '\\' {
        Regroup(['\\', from[1]], tail, rest);
        LexPair(from[1], tail + "'" + rest);
      } else if from[0] == '\'' {
        Regroup("''", tail, rest);
        LexQuotes(tail + "'" + rest);
      } else {
        Regroup([from[0]], tail, rest);
        LexPlain(from[0], tail + "'" + rest);
      }
    }
  }

  lemma Regroup(first: string, tail: string, rest: string)
    ensures first + tail + "'" + rest == first + (tail + "'" + rest)
  {
  }

  /** The escaping works off the text in the same units as the reading of a literal. */
  lemma {:induction false} FieldHead(from: string)
    requires from != "" && from != ['\\']
    ensures from[0] == '\\' ==> |from| > 1 && FieldEscaped(from, false) == ['\\', from[1]] + FieldEscaped(from[2..], false)
    ensures from[0] == '\'' ==> FieldEscaped(from, false) == "''" + FieldEscaped(from[1..], false)
    ensures from[0] != '\'' && from[0] != '\\' ==> FieldEscaped(from, false) == [from[0]] + FieldEscaped(from[1..], false)
  {
    if from[0] == '\\' {
      assert from == ['\\'] + from[1..];
      assert from[1..][1..] == from[2..];
      assert FieldEscaped(from[1..], true) == [from[1]] + FieldEscaped(from[2..], false);
    }
  }

  lemma {:induction false} FieldLength(from: string, odd: bool)
    ensures |FieldEscaped(from, odd)| <= 2 * |from| + if odd then 1 else 0
  {
    if from != "" {
      FieldLength(from[1..], if from[0] == '\\' then !odd else false);
    }
  }

  /** What one character is escaped to. */
  function FieldChar(ch: char, odd: bool): string {
    if ch == '\'' && !odd then [ch, ch] else [ch]
  }

  function NextOdd(ch: char, odd: bool): bool {
    if ch == '\\' then !odd else false
  }

  lemma FieldStep(from: string, i: nat, odd: bool)
    requires i < |from|
    ensures FieldEscaped(from[i..], odd) == FieldChar(from[i], odd) + FieldEscaped(from[i + 1..], NextOdd(from[i], odd))
  {
    assert from[i..][0] == from[i] && from[i..][1..] == from[i + 1..];
  }

  lemma FieldEnd(from: string, odd: bool)
    ensures FieldEscaped(from[|from|..], odd) == if odd then "\\" else ""
  {
  }

  /** `field_escape` of `mysqldump`, which also writes the quotes. */
  method DumpFieldEscape(start: string, from: string) returns (text: string)
    ensures text == start + "'" + FieldEscaped(from, false) + "'"
  {
    hide FieldEscaped;
    text := start + "'";
    var endBackslashes := false;
    var i := 0;
    assert from[0..] == from;
    while i < |from|
      invariant 0 <= i <= |from|
      invariant text + FieldEscaped(from[i..], endBackslashes) == start + "'" + FieldEscaped(from, false)
    {
      FieldStep(from, i, endBackslashes);
      ghost var next := text + FieldChar(from[i], endBackslashes);
      text := text + [from[i]];
      if from[i] == '\\' {
        endBackslashes := !endBackslashes;
      } else {
        if from[i] == '\'' && !endBackslashes {
          text := text + [from[i]];
        }
        endBackslashes := false;
      }
      assert text == next;
      i := i + 1;
    }
    FieldEnd(from, endBackslashes);
    if endBackslashes {
      text := text + "\\";
    }
    text := text + "'";
  }

  /** `field_escape` of `mysqlimport`, which writes behind `to` in the statement buffer. */
  method ImportFieldEscape(buff: array<char>, to: nat, from: string) returns (end: nat)
    requires to + 2 * |from| <= buff.Length
    modifies buff
    ensures to <= end <= buff.Length
    ensures buff[..to] == old(buff[..to]) && buff[to..end] == FieldEscaped(from, false)
  {
    hide FieldEscaped;
    FieldLength(from, false);
    end := to;
    var endBackslashes := false;
    var i := 0;
    assert from[0..] == from && buff[to..to] == "";
    while i < |from|
      invariant 0 <= i <= |from| && to <= end <= buff.Length
      invariant end + |FieldEscaped(from[i..], endBackslashes)| == to + |FieldEscaped(from, false)|
      invariant buff[..to] == old(buff[..to])
      invariant buff[to..end] + FieldEscaped(from[i..], endBackslashes) == FieldEscaped(from, false)
    {
      FieldStep(from, i, endBackslashes);
      Assoc(buff[to..end], FieldChar(from[i], endBackslashes), FieldEscaped(from[i + 1..], NextOdd(from[i], endBackslashes)));
      ghost var next := buff[to..end] + FieldChar(from[i], endBackslashes);
      var twice := from[i] == '\'' && !endBackslashes;
      end := PutBehind(buff, to, end, from[i]);
      if from[i] == '\\' {
        endBackslashes := !endBackslashes;
      } else {
        if twice {
          end := PutBehind(buff, to, end, from[i]);
        }
        endBackslashes := false;
      }
      assert buff[to..end] == next;
      i := i + 1;
    }
    FieldEnd(from, endBackslashes);
    if endBackslashes {
      end := PutBehind(buff, to, end, '\\');
    }
  }

  method PutBehind(buff: array<char>, start: nat, to: nat, ch: char) returns (next: nat)
    requires start <= to < buff.Length
    modifies buff
    ensures next == to + 1 && buff[..start] == old(buff[..start]) && buff[start..next] == old(buff[start..to]) + [ch]
  {
    buff[to] := ch;
    next := to + 1;
  }
}
