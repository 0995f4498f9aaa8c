/**
 What the text of the login file stands for: sections with unique names, in order,
 each with at most one line per option.  The edits on the text are shown to be the
 plain operations on these sections, over any run of commands.
 */
module LoginSections {
  import opened Sequences
  import opened LoginText

  datatype Key = User | Password | Host | Socket | Port

  function KeyName(k: Key): string {
    match k
    case User => "user"
    case Password => "password"
    case Host => "host"
    case Socket => "socket"
    case Port => "port"
  }

  datatype Setting = Setting(key: Key, value: string)

  datatype Section = Section(name: string, settings: seq<Setting>)

  type Config = seq<Section>

  function SettingLine(s: Setting): string {
    KeyName(s.key) + (" = " + s.value)
  }

  function SettingLines(ss: seq<Setting>): seq<string> {
    if ss == [] then [] else [SettingLine(ss[0])] + SettingLines(ss[1..])
  }

  function SectionLines(s: Section): seq<string> {
    [Header(s.name)] + SettingLines(s.settings)
  }

  function ConfigLines(cfg: Config): seq<string> {
    if cfg == [] then [] else SectionLines(cfg[0]) + ConfigLines(cfg[1..])
  }

  function Render(cfg: Config): string {
    Join(ConfigLines(cfg))
  }

  // ----- well-formed configurations -----------------------------------------------------------------------

  predicate GoodName(name: string) {
    '\n' !in name && ']' !in name
  }

  predicate HasKey(ss: seq<Setting>, k: Key) {
    exists s | s in ss :: s.key == k
  }

  ghost predicate GoodSettings(ss: seq<Setting>) {
    && (forall s | s in ss :: '\n' !in s.value)
    && (forall i, j | 0 <= i < j < |ss| :: ss[i].key != ss[j].key)
  }

  predicate HasName(cfg: Config, name: string) {
    exists s | s in cfg :: s.name == name
  }

  /** Good names and values; names are unique, and so are the options of a section. */
  ghost predicate Good(cfg: Config) {
    && (forall s | s in cfg :: GoodName(s.name) && GoodSettings(s.settings))
    && (forall i, j | 0 <= i < j < |cfg| :: cfg[i].name != cfg[j].name)
  }

  lemma GoodTail(cfg: Config)
    requires Good(cfg) && cfg != []
    ensures Good(cfg[1..]) && GoodName(cfg[0].name) && GoodSettings(cfg[0].settings) && !HasName(cfg[1..], cfg[0].name)
  {
    assert cfg[0] in cfg;
    forall s | s in cfg[1..] ensures s.name != cfg[0].name {
      var i :| 0 <= i < |cfg[1..]| && cfg[1..][i] == s;
      assert cfg[i + 1].name != cfg[0].name;
    }
  }

  lemma SettingsTail(ss: seq<Setting>)
    requires GoodSettings(ss) && ss != []
    ensures GoodSettings(ss[1..]) && '\n' !in ss[0].value && !HasKey(ss[1..], ss[0].key)
  {
    assert ss[0] in ss;
    forall s | s in ss[1..] ensures s.key != ss[0].key {
      var i :| 0 <= i < |ss[1..]| && ss[1..][i] == s;
      assert ss[i + 1].key != ss[0].key;
    }
  }

  // ----- the operations on sections -----------------------------------------------------------------------------

  function WithoutName(cfg: Config, name: string): Config {
    if cfg == [] then [] else (if cfg[0].name == name then [] else [cfg[0]]) + WithoutName(cfg[1..], name)
  }

  function WithoutKey(ss: seq<Setting>, k: Key): seq<Setting> {
    if ss == [] then [] else (if ss[0].key == k then [] else [ss[0]]) + WithoutKey(ss[1..], k)
  }

  function WithoutKeyOf(cfg: Config, name: string, k: Key): Config {
    if cfg == [] then []
    else [if cfg[0].name == name then cfg[0].(settings := WithoutKey(cfg[0].settings, k)) else cfg[0]] + WithoutKeyOf(cfg[1..], name, k)
  }

  // ----- which line starts with what ------------------------------------------------------------------------------

  lemma KeyStarts(s: Setting, k: Key)
    ensures KeyName(k) <= SettingLine(s) <==> s.key == k
    ensures SettingLine(s) != "" && SettingLine(s)[0] != '[' && !("[" <= SettingLine(s))
  {
    var l := SettingLine(s);
    assert forall i | 0 <= i < |KeyName(s.key)| :: l[i] == KeyName(s.key)[i];
    if s.key != k {
      assert l[0] != KeyName(k)[0] || l[1] != KeyName(k)[1];
    }
  }

  lemma HeaderStarts(m: string, n: string)
    requires GoodName(m) && GoodName(n)
    ensures Header(n) <= Header(m) <==> m == n
  {
    assert Header(m)[1..][..|m|] == m && Header(n)[1..][..|n|] == n;
    if Header(n) <= Header(m) {
      assert Header(m)[|n| + 1] == Header(n)[|n| + 1] == ']';
      if m != "" {
        var i := if |n| < |m| then |n| else 0;
        assert m[i] in m && Header(m)[i + 1] == m[i];
      }
      assert |n| == |m|;
      assert Header(m)[..|n| + 2] == Header(n);
    }
  }

  ghost predicate NoneStarts(lines: seq<string>, q: string) {
    forall l | l in lines :: !(q <= l)
  }

  lemma SeekCons(l: string, rest: seq<string>, q: string)
    requires !(q <= l)
    ensures Seek([l] + rest, q) == Seek(rest, q) && Skipped([l] + rest, q) == [l] + Skipped(rest, q)
  {
    assert ([l] + rest)[1..] == rest;
  }

  lemma {:induction false} SeekBehind(a: seq<string>, b: seq<string>, q: string)
    requires NoneStarts(a, q)
    ensures Seek(a + b, q) == Seek(b, q) && Skipped(a + b, q) == a + Skipped(b, q)
  {
    hide Seek, Skipped;
    if a == [] {
      assert a + b == b && [] + Skipped(b, q) == Skipped(b, q);
    } else {
      assert forall l | l in a[1..] :: l in a;
      SeekBehind(a[1..], b, q);
      assert a[0] in a && a == [a[0]] + a[1..];
      Assoc([a[0]], a[1..], b);
      SeekCons(a[0], a[1..] + b, q);
      Assoc([a[0]], a[1..], Skipped(b, q));
    }
  }

  lemma {:induction false} SettingsNoHeader(ss: seq<Setting>, q: string)
    requires q != "" && q[0] == '['
    ensures NoneStarts(SettingLines(ss), q)
  {
    if ss != [] {
      KeyStarts(ss[0], User);
      SettingsNoHeader(ss[1..], q);
    }
  }

  lemma {:induction false} SettingsNoKey(ss: seq<Setting>, k: Key)
    requires !HasKey(ss, k)
    ensures NoneStarts(SettingLines(ss), KeyName(k))
  {
    if ss != [] {
      assert ss[0] in ss;
      KeyStarts(ss[0], k);
      SettingsNoKey(ss[1..], k);
    }
  }

  lemma OtherSection(s: Section, name: string)
    requires GoodName(s.name) && GoodName(name) && s.name != name
    ensures NoneStarts(SectionLines(s), Header(name))
  {
    HeaderStarts(s.name, name);
    SettingsNoHeader(s.settings, Header(name));
  }

  /** What follows a section is a header, or nothing. */
  lemma HeaderNext(cfg: Config)
    ensures Seek(ConfigLines(cfg), "[") == ConfigLines(cfg) && Skipped(ConfigLines(cfg), "[") == []
  {
    if cfg != [] {
      assert ConfigLines(cfg)[0] == Header(cfg[0].name);
      assert "[" <= Header(cfg[0].name);
    }
  }

  // ----- removing a path --------------------------------------------------------------------------------------------

  lemma {:induction false} WithoutNameSame(cfg: Config, name: string)
    requires !HasName(cfg, name)
    ensures WithoutName(cfg, name) == cfg
  {
    if cfg != [] {
      assert cfg[0] in cfg;
      WithoutNameSame(cfg[1..], name);
    }
  }

  lemma {:induction false} PathLinesRemoved(cfg: Config, name: string)
    requires Good(cfg) && GoodName(name)
    ensures WithoutSection(ConfigLines(cfg), Header(name)) == ConfigLines(WithoutName(cfg, name))
  {
    hide Seek, Skipped, SectionLines;
    if cfg == [] {
      SeekSplits([], Header(name));
    } else {
      var s := cfg[0];
      GoodTail(cfg);
      if s.name == name {
        OwnSection(s, ConfigLines(cfg[1..]), name);
        HeaderNext(cfg[1..]);
        WithoutNameSame(cfg[1..], name);
        assert WithoutName(cfg, name) == cfg[1..];
      } else {
        PathLinesRemoved(cfg[1..], name);
        OtherSection(s, name);
        KeepSection(s, cfg[1..], name);
      }
    }
  }

  lemma OwnSection(s: Section, rest: seq<string>, name: string)
    requires s.name == name
    ensures WithoutSection(SectionLines(s) + rest, Header(name)) == Seek(rest, "[")
  {
    var lines := SectionLines(s) + rest;
    assert lines[0] == Header(name) && lines[1..] == SettingLines(s.settings) + rest;
    SettingsNoHeader(s.settings, "[");
    SeekBehind(SettingLines(s.settings), rest, "[");
  }

  lemma KeepLines(a: seq<string>, b: seq<string>, header: string)
    requires NoneStarts(a, header)
    ensures WithoutSection(a + b, header) == a + WithoutSection(b, header)
  {
    hide Seek, Skipped;
    SeekBehind(a, b, header);
    var s := Seek(b, header);
    if s != [] { assert a + Skipped(b, header) + Seek(s[1..], "[") == a + (Skipped(b, header) + Seek(s[1..], "[")); }
  }

  lemma KeepSection(s: Section, cfg: Config, name: string)
    requires s.name != name && NoneStarts(SectionLines(s), Header(name))
    requires WithoutSection(ConfigLines(cfg), Header(name)) == ConfigLines(WithoutName(cfg, name))
    ensures WithoutSection(SectionLines(s) + ConfigLines(cfg), Header(name)) == ConfigLines([s] + WithoutName(cfg, name))
  {
    hide WithoutSection, SectionLines;
    KeepLines(SectionLines(s), ConfigLines(cfg), Header(name));
    assert ([s] + WithoutName(cfg, name))[1..] == WithoutName(cfg, name);
  }

  // ----- removing an option -------------------------------------------------------------------------------------------

  lemma {:induction false} WithoutKeySame(ss: seq<Setting>, k: Key)
    requires !HasKey(ss, k)
    ensures WithoutKey(ss, k) == ss
  {
    if ss != [] {
      assert ss[0] in ss;
      WithoutKeySame(ss[1..], k);
    }
  }

  /** The header that ends the search for an option is that of the next section. */
  lemma SearchEnds(ss: seq<Setting>, rest: seq<string>)
    requires Seek(rest, "[") == rest
    ensures Seek(SettingLines(ss) + rest, "[") == rest
  {
    hide Seek, SettingLines;
    SettingsNoHeader(ss, "[");
    SeekBehind(SettingLines(ss), rest, "[");
  }

  lemma NoOptionLine(ss: seq<Setting>, rest: seq<string>, k: Key)
    requires !HasKey(ss, k) && Seek(rest, "[") == rest
    ensures WithoutOption(SettingLines(ss) + rest, KeyName(k)) == SettingLines(WithoutKey(ss, k)) + rest
  {
    hide Seek, Skipped, SettingLines, WithoutKey;
    SearchEnds(ss, rest);
    SettingsNoKey(ss, k);
    SeekBehind(SettingLines(ss), rest, KeyName(k));
    SeekSplits(rest, KeyName(k));
    WithoutKeySame(ss, k);
  }

  lemma SeekHere(lines: seq<string>, q: string)
    requires lines != [] && q <= lines[0]
    ensures Seek(lines, q) == lines && Skipped(lines, q) == []
  {
  }

  lemma FirstOptionLine(ss: seq<Setting>, rest: seq<string>, k: Key)
    requires ss != [] && ss[0].key == k && !HasKey(ss[1..], k) && Seek(rest, "[") == rest
    ensures WithoutOption(SettingLines(ss) + rest, KeyName(k)) == SettingLines(WithoutKey(ss, k)) + rest
  {
    hide Seek, Skipped, SettingLine, KeyName;
    var lines := SettingLines(ss) + rest;
    SearchEnds(ss, rest);
    KeyStarts(ss[0], k);
    assert lines[0] == SettingLine(ss[0]) && lines[1..] == SettingLines(ss[1..]) + rest;
    SeekHere(lines, KeyName(k));
    assert WithoutOption(lines, KeyName(k)) == lines[1..];
    WithoutKeySame(ss[1..], k);
    assert WithoutKey(ss, k) == ss[1..];
  }

  lemma KeepOption(l: string, more: seq<string>, option: string)
    requires !(option <= l) && !("[" <= l)
    ensures WithoutOption([l] + more, option) == [l] + WithoutOption(more, option)
  {
    assert ([l] + more)[1..] == more;
    var o := Seek(more, option);
    if |o| > |Seek(more, "[")| { assert [l] + Skipped(more, option) + o[1..] == [l] + (Skipped(more, option) + o[1..]); }
  }

  lemma SettingsCons(s: Setting, ss: seq<Setting>)
    ensures SettingLines([s] + ss) == [SettingLine(s)] + SettingLines(ss)
  {
    assert ([s] + ss)[1..] == ss;
  }

  lemma LaterOptionLine(ss: seq<Setting>, rest: seq<string>, k: Key)
    requires ss != [] && ss[0].key != k
    requires WithoutOption(SettingLines(ss[1..]) + rest, KeyName(k)) == SettingLines(WithoutKey(ss[1..], k)) + rest
    ensures WithoutOption(SettingLines(ss) + rest, KeyName(k)) == SettingLines(WithoutKey(ss, k)) + rest
  {
    var l, ls, kept := SettingLine(ss[0]), SettingLines(ss[1..]), WithoutKey(ss[1..], k);
    assert WithoutKey(ss, k) == [ss[0]] + kept && SettingLines(ss) == [l] + ls;
    hide WithoutOption, SettingLine, KeyName, SettingLines, WithoutKey;
    KeyStarts(ss[0], k);
    Assoc([l], ls, rest);
    KeepOption(l, ls + rest, KeyName(k));
    SettingsCons(ss[0], kept);
    Assoc([l], SettingLines(kept), rest);
  }

  lemma {:induction false} OptionLineRemoved(ss: seq<Setting>, rest: seq<string>, k: Key)
    requires GoodSettings(ss) && Seek(rest, "[") == rest
    ensures WithoutOption(SettingLines(ss) + rest, KeyName(k)) == SettingLines(WithoutKey(ss, k)) + rest
  {
    hide WithoutOption, SettingLines, WithoutKey, Seek;
    if !HasKey(ss, k) {
      NoOptionLine(ss, rest, k);
    } else {
      SettingsTail(ss);
      if ss[0].key == k {
        FirstOptionLine(ss, rest, k);
      } else {
        OptionLineRemoved(ss[1..], rest, k);
        LaterOptionLine(ss, rest, k);
      }
    }
  }

  /** In the section itself. */
  lemma OwnOption(s: Section, rest: seq<string>, k: Key)
    requires GoodSettings(s.settings) && Seek(rest, "[") == rest
    ensures WithoutOptionOf(SectionLines(s) + rest, Header(s.name), KeyName(k)) ==
            SectionLines(s.(settings := WithoutKey(s.settings, k))) + rest
  {
    hide WithoutOption, SettingLines, WithoutKey;
    var h, ls := Header(s.name), SettingLines(s.settings);
    assert SectionLines(s) + rest == [h] + (ls + rest) && ([h] + (ls + rest))[1..] == ls + rest;
    OptionLineRemoved(s.settings, rest, k);
    var kept := SettingLines(WithoutKey(s.settings, k));
    assert [] + ([h] + (kept + rest)) == [h] + kept + rest;
  }

  lemma KeepLinesOf(a: seq<string>, b: seq<string>, header: string, option: string)
    requires NoneStarts(a, header)
    ensures WithoutOptionOf(a + b, header, option) == a + WithoutOptionOf(b, header, option)
  {
    hide Seek, Skipped, WithoutOption;
    SeekBehind(a, b, header);
    var s := Seek(b, header);
    if s != [] {
      var kept := [s[0]] + WithoutOption(s[1..], option);
      assert a + Skipped(b, header) + kept == a + (Skipped(b, header) + kept);
    }
  }

  lemma {:induction false} WithoutKeyOfSame(cfg: Config, name: string, k: Key)
    requires !HasName(cfg, name)
    ensures WithoutKeyOf(cfg, name, k) == cfg
  {
    if cfg != [] {
      assert cfg[0] in cfg;
      WithoutKeyOfSame(cfg[1..], name, k);
    }
  }

  lemma LinesOfCons(s: Section, cfg: Config)
    ensures ConfigLines([s] + cfg) == SectionLines(s) + ConfigLines(cfg)
  {
    assert ([s] + cfg)[1..] == cfg;
  }

  lemma {:induction false} OptionLinesRemoved(cfg: Config, name: string, k: Key)
    requires Good(cfg) && GoodName(name)
    ensures WithoutOptionOf(ConfigLines(cfg), Header(name), KeyName(k)) == ConfigLines(WithoutKeyOf(cfg, name, k))
  {
    hide SectionLines, WithoutOption, WithoutKey;
    if cfg != [] {
      var s := cfg[0];
      GoodTail(cfg);
      if s.name == name {
        HeaderNext(cfg[1..]);
        OwnOption(s, ConfigLines(cfg[1..]), k);
        WithoutKeyOfSame(cfg[1..], name, k);
        LinesOfCons(s.(settings := WithoutKey(s.settings, k)), cfg[1..]);
      } else {
        OptionLinesRemoved(cfg[1..], name, k);
        OtherSection(s, name);
        KeepLinesOf(SectionLines(s), ConfigLines(cfg[1..]), Header(name), KeyName(k));
        LinesOfCons(s, WithoutKeyOf(cfg[1..], name, k));
      }
    }
  }
}
