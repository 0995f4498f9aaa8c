/**
 `parse_cnf_file` of auth_utils.cc: reads the options of one section from the
 decrypted login file, word by word from a stream.
 */
module CnfParser {
  import opened Wrappers
  import opened LoginText

  datatype Code = AllOk | NoSuchCategory

  type Found = map<string, string>

  /** `isspace` in the C locale. */
  predicate IsSpace(c: char) {
    c == ' ' || c == '\t' || c == '\n' || c == '\U{0B}' || c == '\U{0C}' || c == '\r'
  }

  function SkipSpace(s: string): string {
    if s != "" && IsSpace(s[0]) then SkipSpace(s[1..]) else s
  }

  function TakeWord(s: string): string {
    if s == "" || IsSpace(s[0]) then "" else [s[0]] + TakeWord(s[1..])
  }

  /** `trim`: the first word of the text, or nothing. */
  function Trim(s: string): string {
    TakeWord(SkipSpace(s))
  }

  function Upto(s: string, d: char): (n: nat)
    ensures n <= |s|
  {
    if s == "" || s[0] == d then 0 else 1 + Upto(s[1..], d)
  }

  /** `getline` up to a delimiter: what is read, what is left, and whether the text ended before the delimiter. */
  function Taken(s: string, d: char): string {
    s[..Upto(s, d)]
  }

  function Left(s: string, d: char): (r: string)
    ensures !Ends(s, d) ==> |r| < |s|
    ensures Ends(s, d) ==> r == ""
  {
    if Upto(s, d) < |s| then s[Upto(s, d) + 1..] else ""
  }

  predicate Ends(s: string, d: char) {
    Upto(s, d) == |s|
  }

  function Insert(m: Found, k: string, v: string): Found {
    if k == "" || k in m then m else m[k := v]
  }

  /** What follows the line of the header; none if there is no such line. */
  function SeekHeader(s: string, header: string): Option<string>
    decreases |s|
  {
    if Trim(Taken(s, '\n')) == header then Some(Left(s, '\n'))
    else if Ends(s, '\n') then None
    else SeekHeader(Left(s, '\n'), header)
  }

  /** The options up to the next section; the name of an option goes up to the next equals sign, whatever lies between. */
  function ReadOptions(s: string, m: Found): Found
    decreases |s|, 1
  {
    if Ends(s, '=') then m else AfterName(Trim(Taken(s, '=')), Left(s, '='), m)
  }

  /** What is still to be read when the name of an option has been. */
  function AfterName(name: string, rest: string, m: Found): Found
    decreases |rest|, 2
  {
    if name != "" && name[0] == '[' then m
    else ReadOptions(Left(rest, '\n'), Insert(m, name, Trim(Taken(rest, '\n'))))
  }

  /** `parse_cnf_file` */
  function Parse(s: string, m: Found, header: string): (Code, Found) {
    match SeekHeader(s, Header(header))
    case None => (NoSuchCategory, m)
    case Some(rest) => (AllOk, ReadOptions(rest, m))
  }

  // ----- the program -----------------------------------------------------------------------------------------

  class Stream {
    var rest: string
    var eof: bool

    constructor (text: string)
      ensures rest == text && !eof
    {
      rest, eof := text, false;
    }

    /** `getline` */
    method GetLine(d: char) returns (row: string)
      modifies this
      ensures row == Taken(old(rest), d) && rest == Left(old(rest), d) && eof == (old(eof) || Ends(old(rest), d))
    {
      row := "";
      ghost var all := rest;
      while rest != "" && rest[0] != d
        invariant all == row + rest && Upto(all, d) == |row| + Upto(rest, d)
        invariant eof == old(eof)
        decreases |rest|
      {
        row, rest := row + [rest[0]], rest[1..];
      }
      assert all[..|row|] == row;
      if rest == "" {
        eof := true;
      } else {
        assert all[|row| + 1..] == rest[1..];
        rest := rest[1..];
      }
    }
  }

  /** Finds the header; false when the stream ends before it. */
  method FindHeader(sin: Stream, header: string) returns (found: bool)
    requires !sin.eof
    modifies sin
    ensures var r := SeekHeader(old(sin.rest), header); (found <==> r.Some?) && (found ==> sin.rest == r.value)
    ensures sin.eof ==> sin.rest == ""
  {
    hide Trim, Taken, Left, Upto;
    ghost var wanted := SeekHeader(sin.rest, header);
    while true
      invariant !sin.eof && SeekHeader(sin.rest, header) == wanted
      decreases |sin.rest|
    {
      var row := sin.GetLine('\n');
      if Trim(row) == header {
        return true;
      } else if sin.eof {
        return false;
      }
    }
  }

  method CollectOptions(sin: Stream, options: Found) returns (found: Found)
    requires sin.eof ==> sin.rest == ""
    modifies sin
    ensures found == ReadOptions(old(sin.rest), options)
  {
    hide Trim, Taken, Left, Upto, Insert;
    found := options;
    ghost var wanted := ReadOptions(sin.rest, found);
    var name := sin.GetLine('=');
    while !sin.eof
      invariant wanted == if sin.eof then found else AfterName(Trim(name), sin.rest, found)
      decreases !sin.eof, |sin.rest|
    {
      var n := Trim(name);
      if n != "" && n[0] == '[' {
        return;
      }
      var value := sin.GetLine('\n');
      found := Insert(found, n, Trim(value));
      name := sin.GetLine('=');
    }
  }

  method ParseCnfFile(sin: Stream, options: Found, header: string) returns (code: Code, found: Found)
    requires !sin.eof
    modifies sin
    ensures (code, found) == Parse(old(sin.rest), options, header)
  {
    hide SeekHeader, ReadOptions;
    var ok := FindHeader(sin, Header(header));
    if !ok {
      return NoSuchCategory, options;
    }
    found := CollectOptions(sin, options);
    code := AllOk;
  }
}
