/**
 Comments, with and without --comments.  A comment is left exactly at its first
 closing mark, unless it was opened inside a special comment, contains one, or has
 a slash before the mark; in between nothing is sent, and nothing is kept unless
 comments are kept.
 */
module StatementComments {
  import opened StatementScanner
  import opened StatementTheorems

  /** The loop of `add_line`, stopped as soon as `limit` is reached. */
  function RunTo(e: Client, line: string, s: Scan, limit: nat): Scan
    requires ValidDelimiter(s.c.delimiter)
    decreases |line| - s.pos, if Halted(line, s) then 0 else 1
  {
    if s.pos >= limit || Halted(line, s) then s else RunTo(e, line, Step(e, line, s), limit)
  }

  predicate InComment(e: Client, line: string, s: Scan) {
    SoundScan(e, s) && s.c.comment && !Halted(line, s) && NUL !in line
  }

  /** Inside a comment there are three branches. */
  lemma CommentBranch(e: Client, line: string, s: Scan)
    requires InComment(e, line, s)
    ensures Step(e, line, s) ==
            if AtOpen(line, s) then StepOpen(e, s) else if AtClose(line, s) then StepClose(e, s) else StepKeep(e, line, s)
  {
  }

  /** What is kept only grows, and nothing grows when comments are dropped. */
  predicate Keeps(e: Client, s: Scan, t: Scan) {
    && s.c.buffer + s.out <= t.c.buffer + t.out
    && (!e.keepComments ==> t.c.buffer == s.c.buffer && t.out == s.out)
  }

  lemma CommentStep(e: Client, line: string, s: Scan)
    requires InComment(e, line, s)
    ensures var t := Step(e, line, s);
            && Keeps(e, s, t) && t.stop == s.stop && t.c == s.c.(comment := !AtClose(line, s) || AtOpen(line, s), buffer := t.c.buffer)
            && t.pos == s.pos + (if AtOpen(line, s) || AtClose(line, s) then 2 else 1)
            && t.special == (if AtOpen(line, s) || AtClose(line, s) then s.special else SpecialAfter(line, s))
  {
    hide Step;
    CommentBranch(e, line, s);
    assert s.c.buffer + "" == s.c.buffer;
  }

  /** `m` is the first place at or after `from` where the comment is closed. */
  predicate FirstClose(line: string, from: nat, m: nat) {
    from <= m && StartsAt(line, m, "*/") && forall k | from <= k < m :: !StartsAt(line, k, "*/")
  }

  predicate SpecialAt(line: string, k: nat) {
    StartsAt(line, k, "/*!") || StartsAt(line, k, "/*+")
  }

  /** The text of the comment hides its end from the reader. */
  predicate Misleading(line: string, from: nat, m: nat)
    requires m <= |line|
  {
    (from < m && line[m - 1] == '/') || exists k | from <= k < m :: SpecialAt(line, k)
  }

  lemma StartsTwo(line: string, k: nat, a: char, b: char)
    ensures StartsAt(line, k, [a, b]) <==> k + 2 <= |line| && line[k] == a && line[k + 1] == b
  {
    if k + 2 <= |line| { assert line[k..k + 2] == [line[k], line[k + 1]]; }
  }

  lemma StartsThree(line: string, k: nat, a: char, b: char, c: char)
    ensures StartsAt(line, k, [a, b, c]) <==> k + 3 <= |line| && line[k] == a && line[k + 1] == b && line[k + 2] == c
  {
    if k + 3 <= |line| { assert line[k..k + 3] == [line[k], line[k + 1], line[k + 2]]; }
  }

  lemma CloseBytes(line: string, k: nat)
    ensures StartsAt(line, k, "*/") <==> At(line, k) == '*' && At(line, k + 1) == '/'
  {
    StartsTwo(line, k, '*', '/');
    assert "*/" == ['*', '/'];
  }

  lemma OpenBytes(line: string, k: nat)
    ensures StartsAt(line, k, "/*") <==> At(line, k) == '/' && At(line, k + 1) == '*'
  {
    StartsTwo(line, k, '/', '*');
    assert "/*" == ['/', '*'];
  }

  lemma SpecialBytes(line: string, k: nat)
    ensures SpecialAt(line, k) <==>
            At(line, k) == '/' && At(line, k + 1) == '*' && (At(line, k + 2) == '!' || At(line, k + 2) == '+')
  {
    hide StartsAt;
    StartsThree(line, k, '/', '*', '!');
    StartsThree(line, k, '/', '*', '+');
    assert "/*!" == ['/', '*', '!'] && "/*+" == ['/', '*', '+'];
  }

  /** One step inside a comment keeps what is known about the way to its end. */
  lemma MisleadingStep(line: string, s: Scan, m: nat)
    requires s.pos < m && FirstClose(line, s.pos, m) && s.c.quote == NUL
    ensures AtOpen(line, s) ==> s.pos + 2 <= m + 1 && (s.pos + 2 == m + 1 ==> line[m - 1] == '/')
    ensures AtOpen(line, s) && s.pos + 2 <= m ==> (Misleading(line, s.pos, m) <==> Misleading(line, s.pos + 2, m))
    ensures !AtOpen(line, s) && SpecialAt(line, s.pos) ==> SpecialAfter(line, s) != NoSpecial
    ensures !AtOpen(line, s) && !SpecialAt(line, s.pos) ==>
              (SpecialAfter(line, s) == NoSpecial <==> s.special == NoSpecial)
              && (s.special == NoSpecial ==> (Misleading(line, s.pos, m) <==> Misleading(line, s.pos + 1, m)))
  {
    assert !StartsAt(line, s.pos, "*/");
    CloseBytes(line, m);
    CloseBytes(line, s.pos);
    SpecialBytes(line, s.pos);
    if s.pos + 1 < |line| && line[s.pos + 1] == '*' {
      SpecialBytes(line, s.pos + 1);
    }
  }

  lemma CommentTail(e: Client, line: string, s: Scan, m: nat)
    requires InComment(e, line, s) && StartsAt(line, m, "*/") && s.pos == m + 1
    ensures var r := RunTo(e, line, s, m + 2);
            r.c == s.c.(buffer := r.c.buffer) && Keeps(e, s, r)
  {
    hide Step;
    CloseBytes(line, m);
    CommentStep(e, line, s);
    var t := Step(e, line, s);
    assert RunTo(e, line, t, m + 2) == t;
  }

  lemma KeepsMore(e: Client, s: Scan, t: Scan, r: Scan)
    requires Keeps(e, s, t) && Keeps(e, t, r)
    ensures Keeps(e, s, r)
  {
  }

  lemma NothingMore(e: Client, s: Scan)
    ensures Keeps(e, s, s)
  {
  }

  lemma {:induction false} CommentRun(e: Client, line: string, s: Scan, m: nat)
    requires InComment(e, line, s) && FirstClose(line, s.pos, m)
    ensures var r := RunTo(e, line, s, m + 2);
            && r.c == s.c.(comment := s.special != NoSpecial || Misleading(line, s.pos, m), buffer := r.c.buffer)
            && Keeps(e, s, r)
    decreases m - s.pos
  {
    hide Step, Keeps;
    CloseBytes(line, m);
    CloseBytes(line, s.pos);
    CommentStep(e, line, s);
    var t := Step(e, line, s);
    StepSound(e, line, s);
    NothingMore(e, t);
    if s.pos == m {
      if s.special != NoSpecial {
        CommentTail(e, line, t, m);
        KeepsMore(e, s, t, RunTo(e, line, t, m + 2));
      }
    } else {
      assert !StartsAt(line, s.pos, "*/");
      MisleadingStep(line, s, m);
      if t.pos == m + 1 {
        CommentTail(e, line, t, m);
      } else {
        CommentRun(e, line, t, m);
      }
      KeepsMore(e, s, t, RunTo(e, line, t, m + 2));
    }
  }

  /**
   The comment ends at its first closing mark if and only if it does not stand inside
   a special comment and its text is not misleading.  Until then nothing is sent; and
   nothing of it is kept unless comments are kept.
   */
  lemma CommentEndsAtFirstClose(e: Client, line: string, s: Scan, m: nat)
    requires InComment(e, line, s) && FirstClose(line, s.pos, m)
    ensures var r := RunTo(e, line, s, m + 2);
            && (!r.c.comment <==> s.special == NoSpecial && !Misleading(line, s.pos, m))
            && r.c.log == s.c.log && s.c.buffer + s.out <= r.c.buffer + r.out
            && (!e.keepComments ==> r.c.buffer == s.c.buffer && r.out == s.out)
  {
    hide RunTo, Misleading;
    CommentRun(e, line, s, m);
  }

  // ----- a line on which it does not end ----------------------------------------------------------

  lemma {:induction false} RunToEnd(e: Client, line: string, s: Scan)
    requires ValidDelimiter(s.c.delimiter)
    ensures RunTo(e, line, s, |line|) == Run(e, line, s)
    decreases |line| - s.pos, if Halted(line, s) then 0 else 1
  {
    hide Step;
    if !Halted(line, s) { RunToEnd(e, line, Step(e, line, s)); }
  }

  lemma StaysOpen(e: Client, line: string, s: Scan, m: nat, truncated: bool)
    requires InComment(e, line, s) && FirstClose(line, s.pos, m) && m + 2 == |line|
    requires s.special != NoSpecial || Misleading(line, s.pos, m)
    ensures Finish(e, Run(e, line, s), truncated).comment
  {
    hide Run, RunTo, Misleading;
    CommentRun(e, line, s, m);
    RunToEnd(e, line, s);
  }

  const NESTED := "/* /*! */"

  predicate Fresh(c: Carry) {
    Sound(c) && c.quote == NUL && !c.comment && !c.quit && c.buffer == "" && c.delimiter == ";"
  }

  /** A special comment inside a comment takes its closing mark. */
  lemma NestedKeepsOpen(e: Client, c: Carry, truncated: bool)
    requires Fresh(c)
    ensures AddLine(e, c, NESTED, truncated).comment
  {
    var s := Begin(c);
    var t := Step(e, NESTED, s);
    assert t == StepOpen(e, s);
    assert FirstClose(NESTED, 2, 7) by { NestedCloses(); }
    assert SpecialAt(NESTED, 3);
    StaysOpen(e, NESTED, t, 7, truncated);
  }

  lemma NestedCloses()
    ensures FirstClose(NESTED, 2, 7)
  {
    forall k | 2 <= k < 7 ensures !StartsAt(NESTED, k, "*/") { CloseBytes(NESTED, k); }
  }
}
