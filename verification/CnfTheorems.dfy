/**
 What `parse_cnf_file` returns on the text of a login file: the options of the
 chosen section, each value cut to its first word; and from there, what the whole
 way from the editor's commands through the encrypted file to the parser returns.
 */
module CnfTheorems {
  import opened Sequences
  import opened Bytes
  import opened Wrappers
  import opened LoginText
  import opened LoginSections
  import opened LoginCommands
  import opened LoginFile
  import opened LoginEditor
  import opened CnfParser

  ghost predicate NoSpace(s: string) {
    forall c | c in s :: !IsSpace(c)
  }

  // ----- words -----------------------------------------------------------------------------------------

  lemma {:induction false} WordThen(w: string, c: char, r: string)
    requires NoSpace(w) && IsSpace(c)
    ensures TakeWord(w + ([c] + r)) == w
  {
    if w != "" {
      var s := w + ([c] + r);
      assert s[0] == w[0] && s[1..] == w[1..] + ([c] + r);
      WordThen(w[1..], c, r);
      assert w == [w[0]] + w[1..];
    }
  }

  lemma {:induction false} WordOnly(w: string)
    requires NoSpace(w)
    ensures TakeWord(w) == w
  {
    if w != "" {
      WordOnly(w[1..]);
      assert w == [w[0]] + w[1..];
    }
  }

  lemma {:induction false} TakeWordIs(s: string)
    ensures NoSpace(TakeWord(s)) && TakeWord(s) <= s
  {
    if s != "" && !IsSpace(s[0]) {
      TakeWordIs(s[1..]);
      assert s == [s[0]] + s[1..];
    }
  }

  lemma {:induction false} SkipSpaceIs(s: string)
    ensures |SkipSpace(s)| <= |s| && (|SkipSpace(s)| == |s| ==> SkipSpace(s) == s)
  {
    if s != "" && IsSpace(s[0]) { SkipSpaceIs(s[1..]); }
  }

  /** White space is the blank and the five control characters from tab to carriage return. */
  lemma SpacesAre(ch: char)
    ensures CnfParser.IsSpace(ch) <==> ch as int == 32 || 9 <= ch as int <= 13
  {
  }

  /** A text is its own first word exactly if it has no white space. */
  lemma TrimSame(s: string)
    ensures Trim(s) == s <==> NoSpace(s)
  {
    hide TakeWord;
    TakeWordIs(SkipSpace(s));
    SkipSpaceIs(s);
    if NoSpace(s) {
      if s != "" { assert s[0] in s; }
      WordOnly(s);
    }
  }

  // ----- the lines -------------------------------------------------------------------------------------------

  lemma {:induction false} UptoFirst(a: string, d: char, r: string)
    requires d !in a
    ensures Upto(a + ([d] + r), d) == |a|
  {
    if a != "" {
      var s := a + ([d] + r);
      assert s[0] == a[0] && s[1..] == a[1..] + ([d] + r);
      UptoFirst(a[1..], d, r);
    }
  }

  lemma GetFirst(a: string, d: char, r: string)
    requires d !in a
    ensures var s := a + ([d] + r); Taken(s, d) == a && Left(s, d) == r && !Ends(s, d)
  {
    hide Upto;
    UptoFirst(a, d, r);
    var s := a + ([d] + r);
    assert s[..|a|] == a && s[|a| + 1..] == r;
  }

  lemma FirstOfJoin(lines: seq<string>)
    requires lines != [] && '\n' !in lines[0]
    ensures var s := Join(lines); Taken(s, '\n') == lines[0] && Left(s, '\n') == Join(lines[1..]) && !Ends(s, '\n')
  {
    hide Taken, Left, Ends;
    Assoc(lines[0], "\n", Join(lines[1..]));
    assert "\n" == ['\n'];
    GetFirst(lines[0], '\n', Join(lines[1..]));
  }

  ghost predicate NoneTrims(lines: seq<string>, header: string) {
    forall l | l in lines :: Trim(l) != header
  }

  /** The search passes lines whose first word is not the header. */
  lemma {:induction false} HeaderBehind(a: seq<string>, b: seq<string>, header: string)
    requires AreLines(a) && NoneTrims(a, header)
    ensures SeekHeader(Join(a + b), header) == SeekHeader(Join(b), header)
    decreases |a|
  {
    hide Taken, Left, Ends, Trim;
    if a == [] {
      assert a + b == b;
    } else {
      assert a[0] in a && (a + b)[0] == a[0] && (a + b)[1..] == a[1..] + b;
      FirstOfJoin(a + b);
      assert forall l | l in a[1..] :: l in a;
      HeaderBehind(a[1..], b, header);
    }
  }

  lemma HeaderHere(lines: seq<string>, header: string)
    requires lines != [] && '\n' !in lines[0] && Trim(lines[0]) == header
    ensures SeekHeader(Join(lines), header) == Some(Join(lines[1..]))
  {
    hide Taken, Left, Ends, Trim;
    FirstOfJoin(lines);
  }

  // ----- headers ------------------------------------------------------------------------------------------------

  /** The first word of a header line is a given header exactly if the names agree and have no white space. */
  lemma HeaderTrims(m: string, n: string)
    requires GoodName(m) && GoodName(n)
    ensures Trim(Header(m)) == Header(n) <==> m == n && NoSpace(n)
  {
    var w := Trim(Header(m));
    TakeWordIs(Header(m));
    TrimSame(Header(m));
    assert SkipSpace(Header(m)) == Header(m);
    assert NoSpace(Header(m)) <==> NoSpace(m) by {
      assert forall c | c in m :: c in Header(m);
      assert forall c | c in Header(m) :: c in m || c == '[' || c == ']';
    }
    HeaderStarts(m, n);
  }

  lemma KeyNoSpace(k: Key)
    ensures NoSpace(KeyName(k)) && '=' !in KeyName(k) && KeyName(k) != "" && KeyName(k)[0] != '[' && !IsSpace(KeyName(k)[0])
  {
  }

  lemma SettingTrims(s: Setting)
    ensures Trim(SettingLine(s)) == KeyName(s.key)
  {
    hide KeyName;
    var k, l := KeyName(s.key), SettingLine(s);
    KeyNoSpace(s.key);
    assert l == k + ([' '] + ("= " + s.value));
    WordThen(k, ' ', "= " + s.value);
    assert l[0] == k[0];
  }

  lemma {:induction false} SettingsNoneTrim(ss: seq<Setting>, n: string)
    ensures NoneTrims(SettingLines(ss), Header(n))
  {
    if ss != [] {
      SettingTrims(ss[0]);
      KeyNoSpace(ss[0].key);
      SettingsNoneTrim(ss[1..], n);
    }
  }

  // ----- the options ----------------------------------------------------------------------------------------------

  /** The settings as the parser enters them: first words, and the first entry of a name stays. */
  function Enter(ss: seq<Setting>, m: Found): Found
    decreases |ss|
  {
    if ss == [] then m else Enter(ss[1..], Insert(m, KeyName(ss[0].key), Trim(ss[0].value)))
  }

  lemma OptionRead(s: Setting, rest: string, m: Found)
    requires '\n' !in s.value
    ensures ReadOptions(SettingLine(s) + ("\n" + rest), m) == ReadOptions(rest, Insert(m, KeyName(s.key), Trim(s.value)))
  {
    hide Trim, Taken, Left, Ends, KeyName;
    var k, t := KeyName(s.key), SettingLine(s) + ("\n" + rest);
    KeyNoSpace(s.key);
    assert t == (k + " ") + (['='] + (" " + s.value + ("\n" + rest)));
    GetFirst(k + " ", '=', " " + s.value + ("\n" + rest));
    assert Trim(k + " ") == k by { KeyTrims(s.key); }
    assert " " + s.value + ("\n" + rest) == (" " + s.value) + (['\n'] + rest);
    GetFirst(" " + s.value, '\n', rest);
    SpaceTrims(s.value);
  }

  lemma KeyTrims(k: Key)
    ensures Trim(KeyName(k) + " ") == KeyName(k)
  {
    hide KeyName;
    KeyNoSpace(k);
    assert KeyName(k) + " " == KeyName(k) + ([' '] + "");
    WordThen(KeyName(k), ' ', "");
    assert (KeyName(k) + " ")[0] == KeyName(k)[0];
  }

  lemma SpaceTrims(v: string)
    ensures Trim(" " + v) == Trim(v)
  {
    assert (" " + v)[1..] == v;
  }

  /** The options end at the next header, or with the text. */
  lemma OptionsEnd(cfg: Config, m: Found)
    ensures ReadOptions(Render(cfg), m) == m
  {
    hide Join;
    var t := Render(cfg);
    if cfg == [] {
      assert t == "" by { JoinNotEmpty([]); }
    } else {
      var h := Header(cfg[0].name);
      assert ConfigLines(cfg)[0] == h;
      assert t != "" && t[0] == '[' by { PrefixOfJoin(ConfigLines(cfg), "["); assert "[" <= h; }
      if !Ends(t, '=') { BracketTrims(Taken(t, '=')); }
    }
  }

  lemma BracketTrims(s: string)
    requires s != "" && s[0] == '['
    ensures Trim(s) != "" && Trim(s)[0] == '['
  {
  }

  lemma {:induction false} OptionsRead(ss: seq<Setting>, cfg: Config, m: Found)
    requires GoodSettings(ss)
    ensures ReadOptions(Join(SettingLines(ss) + ConfigLines(cfg)), m) == Enter(ss, m)
    decreases |ss|
  {
    hide ReadOptions, SettingLine, Insert, Trim, KeyName;
    if ss == [] {
      assert SettingLines(ss) + ConfigLines(cfg) == ConfigLines(cfg);
      OptionsEnd(cfg, m);
    } else {
      var l, more := SettingLine(ss[0]), SettingLines(ss[1..]) + ConfigLines(cfg);
      SettingsTail(ss);
      assert SettingLines(ss) + ConfigLines(cfg) == [l] + more;
      JoinCons(l, more);
      Assoc(l, "\n", Join(more));
      OptionRead(ss[0], Join(more), m);
      OptionsRead(ss[1..], cfg, Insert(m, KeyName(ss[0].key), Trim(ss[0].value)));
    }
  }

  // ----- the whole parser ---------------------------------------------------------------------------------------------

  /** What the parser is to return for a name. */
  ghost function Expected(cfg: Config, m: Found, name: string): (Code, Found) {
    match Lookup(cfg, name)
    case None => (NoSuchCategory, m)
    case Some(ss) => if NoSpace(name) then (AllOk, Enter(ss, m)) else (NoSuchCategory, m)
  }

  lemma {:induction false} LookupNone(cfg: Config, name: string)
    requires !HasName(cfg, name)
    ensures Lookup(cfg, name) == None
  {
    if cfg != [] {
      assert cfg[0] in cfg;
      LookupNone(cfg[1..], name);
    }
  }

  lemma OwnHeader(s: Section, cfg: Config, m: Found)
    requires GoodName(s.name) && GoodSettings(s.settings) && NoSpace(s.name)
    ensures Parse(Join(SectionLines(s) + ConfigLines(cfg)), m, s.name) == (AllOk, Enter(s.settings, m))
  {
    hide SeekHeader, ReadOptions, Trim, Join, SettingLines, ConfigLines, Enter;
    var h, ls := Header(s.name), SettingLines(s.settings);
    var lines := SectionLines(s) + ConfigLines(cfg);
    assert lines[0] == h && lines[1..] == ls + ConfigLines(cfg);
    HeaderTrims(s.name, s.name);
    HeaderHere(lines, h);
    OptionsRead(s.settings, cfg, m);
  }

  lemma SectionPassed(s: Section, cfg: Config, header: string)
    requires GoodName(s.name) && GoodSettings(s.settings) && Trim(Header(s.name)) != Header(header)
    ensures SeekHeader(Join(SectionLines(s) + ConfigLines(cfg)), Header(header)) == SeekHeader(Render(cfg), Header(header))
  {
    hide SeekHeader, Trim, Join, SettingLines;
    SettingsAreLines(s.settings);
    SettingsNoneTrim(s.settings, header);
    HeaderBehind(SectionLines(s), ConfigLines(cfg), Header(header));
  }

  /**
   On the text of a good configuration the parser returns the options of the chosen
   section and those only; it does not find a section whose name has white space.
   */
  lemma {:induction false} ParseReturnsSection(cfg: Config, m: Found, name: string)
    requires Good(cfg) && GoodName(name)
    ensures Parse(Render(cfg), m, name) == Expected(cfg, m, name)
    decreases |cfg|
  {
    hide SeekHeader, ReadOptions, SectionLines, Enter, Trim;
    if cfg == [] {
      NothingFound(name);
    } else {
      var s := cfg[0];
      GoodTail(cfg);
      HeaderTrims(s.name, name);
      if s.name == name && NoSpace(name) {
        OwnHeader(s, cfg[1..], m);
      } else {
        ParseReturnsSection(cfg[1..], m, name);
        SectionPassed(s, cfg[1..], name);
        if s.name == name { LookupNone(cfg[1..], name); }
      }
    }
  }

  lemma NothingFound(name: string)
    ensures SeekHeader("", Header(name)) == None
  {
  }

  /** Entering settings with different names: each is there with its first word, and nothing else is. */
  lemma {:induction false} EnterIs(ss: seq<Setting>, m: Found)
    requires GoodSettings(ss) && forall s | s in ss :: KeyName(s.key) !in m
    ensures forall s | s in ss :: KeyName(s.key) in Enter(ss, m) && Enter(ss, m)[KeyName(s.key)] == Trim(s.value)
    ensures forall n | n in m :: n in Enter(ss, m) && Enter(ss, m)[n] == m[n]
    ensures forall n | n in Enter(ss, m) :: n in m || exists s | s in ss :: KeyName(s.key) == n
    decreases |ss|
  {
    hide Trim;
    if ss != [] {
      var next := Insert(m, KeyName(ss[0].key), Trim(ss[0].value));
      SettingsTail(ss);
      assert ss[0] in ss && ss == [ss[0]] + ss[1..];
      forall s | s in ss[1..] ensures KeyName(s.key) !in next {
        assert s in ss;
        KeysDiffer(s.key, ss[0].key);
      }
      EnterIs(ss[1..], next);
      assert KeyName(ss[0].key) in next by { KeyNoSpace(ss[0].key); }
    }
  }

  ghost predicate Extends(m: Found, n: Found) {
    forall k | k in m :: k in n && n[k] == m[k]
  }

  /** On any text at all: what the map already holds stays, and the first entry of a name wins. */
  lemma {:induction false} OptionsKept(s: string, m: Found)
    ensures Extends(m, ReadOptions(s, m))
    decreases |s|
  {
    hide Trim, Taken, Left, Ends;
    if !Ends(s, '=') {
      var name, rest := Trim(Taken(s, '=')), Left(s, '=');
      if name == "" || name[0] != '[' {
        LeftShorter(rest);
        OptionsKept(Left(rest, '\n'), Insert(m, name, Trim(Taken(rest, '\n'))));
      }
    }
  }

  lemma LeftShorter(s: string)
    ensures |Left(s, '\n')| <= |s|
  {
  }

  lemma KeysDiffer(a: Key, b: Key)
    requires a != b
    ensures KeyName(a) != KeyName(b)
  {
    assert KeyName(a)[0] != KeyName(b)[0] || KeyName(a)[1] != KeyName(b)[1];
  }

  /**
   The whole way: after any number of calls of the editor, each of which reads and
   rewrites the encrypted file, the second reader decrypts the file and the parser
   returns for every name what the calls left under it.
   */
  lemma CommandsToOptions(aes: seq<byte> -> Cipher, key: seq<byte>, calls: seq<Call>, name: string)
    requires |key| == LOGIN_KEY_LEN && AllWork(aes) && GoodName(name) && forall c | c in calls :: StorableCall(c)
    ensures var f := InvokeAll(aes, FileHeader(key), calls);
            var text := DecryptFrames(aes(KeyOf(f)), LoginFile.Body(f));
            text.Some? && Parse(text.value, map[], name) == Expected(MeantAll([], calls), map[], name)
  {
    hide Parse, Expected, DecryptFrames, AllWork, InvokeAll, MeantAll, Render, StorableCall, KeyOf, LoginFile.Body;
    NewFile(aes, key);
    CallsKeep(aes, FileHeader(key), [], calls);
    var f, cfg := InvokeAll(aes, FileHeader(key), calls), MeantAll([], calls);
    HeldIsRead(aes, f, cfg);
    ParseReturnsSection(cfg, map[], name);
  }
}
