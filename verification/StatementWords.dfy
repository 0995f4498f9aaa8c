/**
 The scans and look-ups that the statement reader is built from, each by what it finds.
 */
module StatementWords {
  import opened Wrappers
  import opened StatementScanner
  import opened StatementTheorems

  // ----- the first of something -------------------------------------------------------------------------

  /** The two quotes of texts, and the one of names. */
  lemma QuotesAre(ch: char)
    ensures IsQuote(ch) <==> ch as int in {34, 39, 96}
  {
  }

  /** The first character from `k` on that is no blank, or the end. */
  lemma {:induction false} SkipSpacesIs(line: string, k: nat)
    requires k <= |line|
    ensures var q := SkipSpaces(line, k);
            (forall i | k <= i < q :: IsBlank(line[i])) && (q < |line| ==> !IsBlank(line[q]))
    decreases |line| - k
  {
    if k < |line| && IsSpace(line[k]) { SkipSpacesIs(line, k + 1); }
  }

  /** The first space or tab from `k` on, or the end. */
  lemma {:induction false} WordEndIs(text: string, k: nat)
    requires k <= |text|
    ensures var q := WordEnd(text, k);
            (forall i | k <= i < q :: text[i] !in {' ', '\t'}) && (q < |text| ==> text[q] in {' ', '\t'})
    decreases |text| - k
  {
    if k < |text| && text[k] != ' ' && text[k] != '\t' { WordEndIs(text, k + 1); }
  }

  /** The first closing mark from `k` on, or the end. */
  lemma {:induction false} CommentEndIs(line: string, k: nat)
    requires k <= |line|
    ensures var q := CommentEnd(line, k);
            (forall i | k <= i < q :: !StartsAt(line, i, "*/")) && (q < |line| ==> StartsAt(line, q, "*/"))
    decreases |line| - k
  {
    hide StartsAt;
    if k < |line| && !StartsAt(line, k, "*/") { CommentEndIs(line, k + 1); }
  }

  /** Behind the first delimiter from `k` on, or at the end if there is none. */
  lemma {:induction false} AfterDelimiterIs(line: string, k: nat, d: string)
    requires k <= |line| && d != ""
    ensures var q := AfterDelimiter(line, k, d);
            || (k + |d| <= q && StartsAt(line, q - |d|, d) && forall i | k <= i < q - |d| :: !StartsAt(line, i, d))
            || (q == |line| && forall i | k <= i < |line| :: !StartsAt(line, i, d))
    decreases |line| - k
  {
    if k < |line| && !StartsAt(line, k, d) { AfterDelimiterIs(line, k + 1, d); }
  }

  lemma {:induction false} ContainsIff(text: string, part: string, k: nat)
    ensures Contains(text, part, k) <==> exists i: nat | k <= i :: StartsAt(text, i, part)
    decreases |text| - k
  {
    hide StartsAt;
    if k < |text| { ContainsIff(text, part, k + 1); }
    forall i: nat | StartsAt(text, i, part) ensures i + |part| <= |text| { Inside(text, i, part); }
  }

  lemma Inside(text: string, i: nat, part: string)
    ensures StartsAt(text, i, part) ==> i + |part| <= |text|
  {
  }

  // ----- what a one-letter command takes along -------------------------------------------------------------

  /** A command with parameters takes the line up to the delimiter, inside a special comment up to its end. */
  lemma ParametersEnd(line: string, k: nat, command: Command, special: SpecialComment, d: string)
    requires k <= |line| && d != ""
    ensures var q := AfterCommand(line, k, command, special, d);
            && (!command.takesParams ==> q == k)
            && (command.takesParams && special != NoSpecial ==>
                  (forall i | k <= i < q :: !StartsAt(line, i, "*/")) && (q < |line| ==> StartsAt(line, q, "*/")))
            && (command.takesParams && special == NoSpecial && q < |line| ==> k + |d| <= q && StartsAt(line, q - |d|, d))
            && (command.takesParams && special == NoSpecial ==> forall i | k <= i && i + |d| < q :: !StartsAt(line, i, d))
  {
    hide StartsAt;
    CommentEndIs(line, k);
    AfterDelimiterIs(line, k, d);
  }

  // ----- named commands ----------------------------------------------------------------------------------------

  /** The word `delimiter` in letters of either case. */
  lemma DelimiterWord(text: string)
    ensures IsDelimiterCommand(text) <==>
            |text| >= 9 && forall k | 0 <= k < 9 :: text[k] == "delimiter"[k] || text[k] == "DELIMITER"[k]
  {
    var small, large := "delimiter", "DELIMITER";
    assert forall k | 0 <= k < 9 :: ToLower(large[k]) == small[k] && 'a' <= small[k] <= 'z';
    if |text| >= 9 {
      forall k | 0 <= k < 9 ensures ToLower(text[k]) == small[k] <==> text[k] == small[k] || text[k] == large[k] {
        LowerIff(text[k], small[k], large[k]);
      }
    }
  }

  lemma LowerIff(ch: char, small: char, large: char)
    requires 'a' <= small <= 'z' && large as int == small as int - 32
    ensures ToLower(ch) == small <==> ch == small || ch == large
  {
  }

  /** A line that begins with a word is that word's command, unless it holds `\\g`, or the delimiter and does not set it. */
  lemma NamedCommand(e: Client, blanks: string, word: string, rest: string, d: string)
    requires (forall ch | ch in blanks :: IsBlank(ch)) && word != "" && !IsBlank(word[0])
    requires (forall ch | ch in word :: ch !in {' ', '\t'}) && (rest != "" ==> rest[0] in {' ', '\t'})
    ensures var name := word + rest;
            FindCommand(e, blanks + name, d) ==
            if (exists i: nat :: StartsAt(name, i, "\\g")) || ((exists i: nat :: StartsAt(name, i, d)) && !IsDelimiterCommand(name)) then None
            else e.table(word, exists ch :: ch in rest && !IsBlank(ch))
  {
    hide StartsAt, IsDelimiterCommand, Contains;
    var name := word + rest;
    var text := blanks + name;
    FirstWord(blanks, name);
    ContainsIff(name, "\\g", 0);
    ContainsIff(name, d, 0);
    WordAlone(word, rest);
    Arguments(word, rest);
  }

  lemma FirstWord(blanks: string, name: string)
    requires (forall ch | ch in blanks :: IsBlank(ch)) && name != "" && !IsBlank(name[0])
    ensures (blanks + name)[SkipSpaces(blanks + name, 0)..] == name
  {
    var text := blanks + name;
    var q := SkipSpaces(text, 0);
    SkipSpacesIs(text, 0);
    assert text[|blanks|] == name[0];
    forall i | 0 <= i < |blanks| ensures IsBlank(text[i]) { assert text[i] in blanks; }
    assert q == |blanks|;
  }

  lemma WordAlone(word: string, rest: string)
    requires (forall ch | ch in word :: ch !in {' ', '\t'}) && (rest != "" ==> rest[0] in {' ', '\t'})
    ensures var name := word + rest; WordEnd(name, 0) == |word| && name[..|word|] == word
  {
    var name := word + rest;
    var q := WordEnd(name, 0);
    WordEndIs(name, 0);
    forall i | 0 <= i < |word| ensures name[i] !in {' ', '\t'} { assert name[i] in word; }
    assert rest != "" ==> name[|word|] == rest[0];
    assert q == |word|;
  }

  lemma Arguments(word: string, rest: string)
    ensures var name := word + rest; SkipSpaces(name, |word|) < |name| <==> exists ch :: ch in rest && !IsBlank(ch)
  {
    var name := word + rest;
    var q := SkipSpaces(name, |word|);
    SkipSpacesIs(name, |word|);
    if q < |name| {
      assert name[q] == rest[q - |word|];
    } else {
      forall ch | ch in rest ensures IsBlank(ch) {
        var i :| 0 <= i < |rest| && rest[i] == ch;
        assert name[|word| + i] == ch;
      }
    }
  }

  // ----- what the commands do ---------------------------------------------------------------------------------------

  /** A delimiter has at most fifteen characters and no backslash; without an argument it stays. */
  lemma DelimiterSet(current: string, argument: CString)
    ensures var d := NewDelimiter(current, argument);
            && (argument == "" || '\\' in argument ==> d == current)
            && (argument != "" && '\\' !in argument ==> d <= argument && |d| <= 15 && (|d| < 15 ==> d == argument))
  {
  }

  /** What each kind of command changes, and that it leaves all else alone. */
  lemma CommandsAre(e: Client, c: Carry, command: Command, text: string)
    ensures var r := Perform(e, c, command, text);
            && r.quote == c.quote && r.comment == c.comment
            && (command.kind.Clear? ==> r.buffer == "" && r.log == c.log && r.delimiter == c.delimiter && r.quit == c.quit)
            && (command.kind.SetDelimiter? ==>
                  r.buffer == c.buffer && r.log == c.log && r.quit == c.quit && r.delimiter == NewDelimiter(c.delimiter, e.argument(text)))
            && (command.kind.Go? ==> r.buffer == "" && r.delimiter == c.delimiter && SendsCut(c, r))
            && (command.kind.Other? ==>
                  r.log == c.log + [Ran(command, text)] && r.buffer == e.edited(r.log, c.buffer) && r.delimiter == c.delimiter)
            && (r.log != c.log ==> r.noEscapes == e.reply(r.log).noEscapes && r.quit == e.reply(r.log).quit)
            && (r.log == c.log ==> r.noEscapes == c.noEscapes && r.quit == c.quit)
  {
    hide RemoveControl;
    assert IsCut(RemoveControl(c.buffer), c.buffer);
  }

  /** The visible part of the buffer has been sent, if there is one. */
  ghost predicate SendsCut(c: Carry, r: Carry) {
    exists text :: IsCut(text, c.buffer) && r.log == c.log + if text == "" then [] else [Statement(text)]
  }
}
