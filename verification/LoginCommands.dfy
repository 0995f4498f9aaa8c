/**
 The commands of `mysql_config_editor` on the text of the login file, and the proof
 that over any run of them the text is that of an ordered map of sections.
 */
module LoginCommands {
  import opened Sequences
  import opened Wrappers
  import opened LoginText
  import opened LoginSections

  /** The options given to `set`. */
  datatype Given = Given(user: Option<string>, password: Option<string>, host: Option<string>, socket: Option<string>, port: Option<string>)

  datatype Command =
    | Set(name: string, given: Given)
    | Remove(name: string, keys: set<Key>)

  // ----- on the text ---------------------------------------------------------------------------------

  function OptionText(k: Key, value: Option<string>): string {
    if value.None? then "" else "\n" + (KeyName(k) + (" = " + value.value))
  }

  /** What `set_command` appends. */
  function PathText(name: string, g: Given): string {
    Header(name) + OptionText(User, g.user) + OptionText(Password, g.password) + OptionText(Host, g.host)
    + OptionText(Socket, g.socket) + OptionText(Port, g.port) + "\n"
  }

  lemma OptionTexts(v: string)
    ensures OptionText(User, Some(v)) == "\nuser = " + v && OptionText(Password, Some(v)) == "\npassword = " + v
    ensures OptionText(Host, Some(v)) == "\nhost = " + v && OptionText(Socket, Some(v)) == "\nsocket = " + v
    ensures OptionText(Port, Some(v)) == "\nport = " + v
  {
    assert "\n" + ("user" + (" = " + v)) == "\nuser = " + v && "\n" + ("password" + (" = " + v)) == "\npassword = " + v;
    assert "\n" + ("host" + (" = " + v)) == "\nhost = " + v && "\n" + ("socket" + (" = " + v)) == "\nsocket = " + v;
    assert "\n" + ("port" + (" = " + v)) == "\nport = " + v;
  }

  /** The text of a path in which everything is given. */
  lemma PathTextIs(name: string, u: string, p: string, h: string, s: string, n: string)
    ensures PathText(name, Given(Some(u), Some(p), Some(h), Some(s), Some(n))) ==
            "[" + name + "]" + ("\nuser = " + u) + ("\npassword = " + p) + ("\nhost = " + h) + ("\nsocket = " + s) + ("\nport = " + n) + "\n"
  {
    hide OptionText;
    OptionTexts(u);
    OptionTexts(p);
    OptionTexts(h);
    OptionTexts(s);
    OptionTexts(n);
  }

  function RemoveIf(t: string, name: string, keys: set<Key>, k: Key): string {
    if k in keys then RemoveOption(t, name, KeyName(k)) else t
  }

  /** `set_command` and `remove_options` */
  function Apply(t: string, cmd: Command): string {
    match cmd
    case Set(name, g) => RemovePath(t, name) + PathText(name, g)
    case Remove(name, keys) =>
      if keys == {} then RemovePath(t, name)
      else RemoveIf(RemoveIf(RemoveIf(RemoveIf(RemoveIf(t, name, keys, User), name, keys, Password), name, keys, Host), name, keys, Socket), name, keys, Port)
  }

  function ApplyAll(t: string, cmds: seq<Command>): string
    decreases |cmds|
  {
    if cmds == [] then t else ApplyAll(Apply(t, cmds[0]), cmds[1..])
  }

  // ----- on the sections -----------------------------------------------------------------------------------

  function SettingIf(k: Key, value: Option<string>): seq<Setting> {
    if value.None? then [] else [Setting(k, value.value)]
  }

  function Settings(g: Given): seq<Setting> {
    SettingIf(User, g.user) + SettingIf(Password, g.password) + SettingIf(Host, g.host)
    + SettingIf(Socket, g.socket) + SettingIf(Port, g.port)
  }

  function WithoutKeys(ss: seq<Setting>, keys: set<Key>): seq<Setting> {
    if ss == [] then [] else (if ss[0].key in keys then [] else [ss[0]]) + WithoutKeys(ss[1..], keys)
  }

  /** The settings of a name, if it has a section. */
  function Lookup(cfg: Config, name: string): Option<seq<Setting>> {
    if cfg == [] then None else if cfg[0].name == name then Some(cfg[0].settings) else Lookup(cfg[1..], name)
  }

  function DropIf(cfg: Config, name: string, keys: set<Key>, k: Key): Config {
    if k in keys then WithoutKeyOf(cfg, name, k) else cfg
  }

  function Perform(cfg: Config, cmd: Command): Config {
    match cmd
    case Set(name, g) => WithoutName(cfg, name) + [Section(name, Settings(g))]
    case Remove(name, keys) =>
      if keys == {} then WithoutName(cfg, name)
      else DropIf(DropIf(DropIf(DropIf(DropIf(cfg, name, keys, User), name, keys, Password), name, keys, Host), name, keys, Socket), name, keys, Port)
  }

  function PerformAll(cfg: Config, cmds: seq<Command>): Config
    decreases |cmds|
  {
    if cmds == [] then cfg else PerformAll(Perform(cfg, cmds[0]), cmds[1..])
  }

  // ----- good configurations stay good ------------------------------------------------------------------------

  predicate GoodOption(v: Option<string>) {
    v.Some? ==> '\n' !in v.value
  }

  predicate GoodCommand(cmd: Command) {
    && GoodName(cmd.name)
    && (cmd.Set? ==> GoodOption(cmd.given.user) && GoodOption(cmd.given.password) && GoodOption(cmd.given.host)
                     && GoodOption(cmd.given.socket) && GoodOption(cmd.given.port))
  }

  lemma {:induction false} WithoutNameIn(cfg: Config, name: string)
    ensures forall s :: s in WithoutName(cfg, name) <==> s in cfg && s.name != name
  {
    if cfg != [] {
      WithoutNameIn(cfg[1..], name);
      assert cfg == [cfg[0]] + cfg[1..];
    }
  }

  lemma GoodCons(s: Section, cfg: Config)
    requires Good(cfg) && GoodName(s.name) && GoodSettings(s.settings) && !HasName(cfg, s.name)
    ensures Good([s] + cfg)
  {
    forall i, j | 0 <= i < j < |[s] + cfg| ensures ([s] + cfg)[i].name != ([s] + cfg)[j].name {
      assert cfg[j - 1] in cfg;
    }
  }

  lemma {:induction false} GoodWithoutName(cfg: Config, name: string)
    requires Good(cfg)
    ensures Good(WithoutName(cfg, name)) && !HasName(WithoutName(cfg, name), name)
  {
    WithoutNameIn(cfg, name);
    if cfg != [] {
      GoodTail(cfg);
      GoodWithoutName(cfg[1..], name);
      WithoutNameIn(cfg[1..], name);
      if cfg[0].name != name { GoodCons(cfg[0], WithoutName(cfg[1..], name)); }
    }
  }

  lemma GoodAppend(cfg: Config, s: Section)
    requires Good(cfg) && GoodName(s.name) && GoodSettings(s.settings) && !HasName(cfg, s.name)
    ensures Good(cfg + [s])
  {
    forall i, j | 0 <= i < j < |cfg + [s]| ensures (cfg + [s])[i].name != (cfg + [s])[j].name {
      assert cfg[i] in cfg;
    }
  }

  lemma GoodGiven(name: string, g: Given)
    requires GoodCommand(Set(name, g))
    ensures GoodSettings(Settings(g))
  {
  }

  lemma {:induction false} WithoutKeyIn(ss: seq<Setting>, k: Key)
    ensures forall s :: s in WithoutKey(ss, k) <==> s in ss && s.key != k
  {
    if ss != [] {
      WithoutKeyIn(ss[1..], k);
      assert ss == [ss[0]] + ss[1..];
    }
  }

  lemma {:induction false} GoodWithoutKey(ss: seq<Setting>, k: Key)
    requires GoodSettings(ss)
    ensures GoodSettings(WithoutKey(ss, k))
  {
    if ss != [] {
      var rest := WithoutKey(ss[1..], k);
      SettingsTail(ss);
      GoodWithoutKey(ss[1..], k);
      WithoutKeyIn(ss[1..], k);
      forall i, j | 0 <= i < j < |[ss[0]] + rest| ensures ([ss[0]] + rest)[i].key != ([ss[0]] + rest)[j].key {
        assert rest[j - 1] in rest;
      }
    }
  }

  lemma {:induction false} SameNames(cfg: Config, name: string, k: Key, n: string)
    ensures HasName(WithoutKeyOf(cfg, name, k), n) <==> HasName(cfg, n)
  {
    if cfg != [] {
      var rest := WithoutKeyOf(cfg[1..], name, k);
      SameNames(cfg[1..], name, k, n);
      var first := WithoutKeyOf(cfg, name, k)[0];
      assert WithoutKeyOf(cfg, name, k) == [first] + rest && cfg == [cfg[0]] + cfg[1..];
      NameFirst(first, rest, n);
      NameFirst(cfg[0], cfg[1..], n);
    }
  }

  lemma NameFirst(s: Section, cfg: Config, n: string)
    ensures HasName([s] + cfg, n) <==> s.name == n || HasName(cfg, n)
  {
    assert ([s] + cfg)[0] == s;
    if HasName(cfg, n) {
      var x :| x in cfg && x.name == n;
      assert x in [s] + cfg;
    }
  }

  lemma {:induction false} GoodWithoutKeyOf(cfg: Config, name: string, k: Key)
    requires Good(cfg)
    ensures Good(WithoutKeyOf(cfg, name, k))
  {
    if cfg != [] {
      GoodTail(cfg);
      GoodWithoutKeyOf(cfg[1..], name, k);
      GoodWithoutKey(cfg[0].settings, k);
      SameNames(cfg[1..], name, k, cfg[0].name);
      GoodCons(WithoutKeyOf(cfg, name, k)[0], WithoutKeyOf(cfg[1..], name, k));
    }
  }

  // ----- the text of the new section ----------------------------------------------------------------------------

  lemma {:induction false} JoinSettings(h: string, ss: seq<Setting>)
    ensures Join([h] + SettingLines(ss)) == h + TextOf(ss) + "\n"
    decreases |ss|
  {
    hide SettingLine, Join;
    JoinCons(h, SettingLines(ss));
    if ss == [] {
      assert Join([]) == "" by { JoinNotEmpty([]); }
    } else {
      JoinSettings(SettingLine(ss[0]), ss[1..]);
      MoveNewline(h, SettingLine(ss[0]), TextOf(ss[1..]));
    }
  }

  lemma MoveNewline(h: string, l: string, t: string)
    ensures h + "\n" + (l + t + "\n") == h + ("\n" + l + t) + "\n"
  {
  }

  /** Each setting on a line of its own, the newline in front. */
  function TextOf(ss: seq<Setting>): string {
    if ss == [] then "" else "\n" + SettingLine(ss[0]) + TextOf(ss[1..])
  }

  lemma {:induction false} TextOfAppend(a: seq<Setting>, b: seq<Setting>)
    ensures TextOf(a + b) == TextOf(a) + TextOf(b)
  {
    if a == [] {
      assert a + b == b;
    } else {
      assert (a + b)[1..] == a[1..] + b;
      TextOfAppend(a[1..], b);
      Assoc("\n" + SettingLine(a[0]), TextOf(a[1..]), TextOf(b));
    }
  }

  lemma TextOfIf(k: Key, v: Option<string>)
    ensures TextOf(SettingIf(k, v)) == OptionText(k, v)
  {
    if v.Some? {
      var s := Setting(k, v.value);
      assert [s][1..] == [];
      assert TextOf([s]) == "\n" + SettingLine(s) + "";
    }
  }

  lemma TextOfSettings(g: Given)
    ensures TextOf(Settings(g)) ==
            OptionText(User, g.user) + OptionText(Password, g.password) + OptionText(Host, g.host)
            + OptionText(Socket, g.socket) + OptionText(Port, g.port)
  {
    hide TextOf, OptionText, SettingIf;
    var u, p, h, s, r := SettingIf(User, g.user), SettingIf(Password, g.password), SettingIf(Host, g.host), SettingIf(Socket, g.socket), SettingIf(Port, g.port);
    TextOfIf(User, g.user);
    TextOfIf(Password, g.password);
    TextOfIf(Host, g.host);
    TextOfIf(Socket, g.socket);
    TextOfIf(Port, g.port);
    TextOfAppend(u, p);
    TextOfAppend(u + p, h);
    TextOfAppend(u + p + h, s);
    TextOfAppend(u + p + h + s, r);
  }

  /** What `set_command` appends is the section, rendered. */
  lemma PathTextRendered(name: string, g: Given)
    ensures PathText(name, g) == Join(SectionLines(Section(name, Settings(g))))
  {
    hide TextOf, OptionText, SettingLines, Settings, Join;
    var u, p, h, s, r := OptionText(User, g.user), OptionText(Password, g.password), OptionText(Host, g.host), OptionText(Socket, g.socket), OptionText(Port, g.port);
    TextOfSettings(g);
    JoinSettings(Header(name), Settings(g));
    assert Header(name) + (u + p + h + s + r) + "\n" == Header(name) + u + p + h + s + r + "\n";
  }

  // ----- the refinement --------------------------------------------------------------------------------------------

  lemma {:induction false} SettingsAreLines(ss: seq<Setting>)
    requires GoodSettings(ss)
    ensures AreLines(SettingLines(ss))
  {
    if ss != [] {
      SettingsTail(ss);
      SettingsAreLines(ss[1..]);
    }
  }

  lemma {:induction false} ConfigAreLines(cfg: Config)
    requires Good(cfg)
    ensures AreLines(ConfigLines(cfg))
  {
    if cfg != [] {
      GoodTail(cfg);
      SettingsAreLines(cfg[0].settings);
      ConfigAreLines(cfg[1..]);
    }
  }

  lemma {:induction false} LinesAppend(a: Config, b: Config)
    ensures ConfigLines(a + b) == ConfigLines(a) + ConfigLines(b)
  {
    if a == [] {
      assert a + b == b;
    } else {
      assert (a + b)[1..] == a[1..] + b;
      LinesAppend(a[1..], b);
      Assoc(SectionLines(a[0]), ConfigLines(a[1..]), ConfigLines(b));
    }
  }

  lemma PathRemoved(cfg: Config, name: string)
    requires Good(cfg) && GoodName(name)
    ensures RemovePath(Render(cfg), name) == Render(WithoutName(cfg, name))
  {
    hide RemovePath, Join, WithoutSection, ConfigLines, WithoutName;
    ConfigAreLines(cfg);
    RemovePathLines(ConfigLines(cfg), name);
    PathLinesRemoved(cfg, name);
  }

  lemma OptionRemoved(cfg: Config, name: string, k: Key)
    requires Good(cfg) && GoodName(name)
    ensures RemoveOption(Render(cfg), name, KeyName(k)) == Render(WithoutKeyOf(cfg, name, k))
  {
    hide RemoveOption, Join, WithoutOptionOf, ConfigLines, WithoutKeyOf;
    ConfigAreLines(cfg);
    RemoveOptionLines(ConfigLines(cfg), name, KeyName(k));
    OptionLinesRemoved(cfg, name, k);
  }

  lemma DropRefines(cfg: Config, name: string, keys: set<Key>, k: Key)
    requires Good(cfg) && GoodName(name)
    ensures Good(DropIf(cfg, name, keys, k)) && RemoveIf(Render(cfg), name, keys, k) == Render(DropIf(cfg, name, keys, k))
  {
    hide Render, RemoveOption, WithoutKeyOf;
    GoodWithoutKeyOf(cfg, name, k);
    OptionRemoved(cfg, name, k);
  }

  lemma SetRefines(cfg: Config, name: string, g: Given)
    requires Good(cfg) && GoodCommand(Set(name, g))
    ensures var after := Perform(cfg, Set(name, g)); Good(after) && Apply(Render(cfg), Set(name, g)) == Render(after)
  {
    hide Join, ConfigLines, SectionLines, RemovePath, PathText, Settings, WithoutName;
    var kept, s := WithoutName(cfg, name), Section(name, Settings(g));
    GoodWithoutName(cfg, name);
    GoodGiven(name, g);
    GoodAppend(kept, s);
    PathRemoved(cfg, name);
    PathTextRendered(name, g);
    LinesAppend(kept, [s]);
    OneSection(s);
    JoinAppend(ConfigLines(kept), SectionLines(s));
  }

  lemma OneSection(s: Section)
    ensures ConfigLines([s]) == SectionLines(s)
  {
    assert SectionLines(s) + [] == SectionLines(s);
  }

  lemma RemoveRefines(cfg: Config, name: string, keys: set<Key>)
    requires Good(cfg) && GoodName(name)
    ensures var after := Perform(cfg, Remove(name, keys)); Good(after) && Apply(Render(cfg), Remove(name, keys)) == Render(after)
  {
    hide Render, DropIf, RemoveIf, RemovePath, WithoutName;
    if keys == {} {
      GoodWithoutName(cfg, name);
      PathRemoved(cfg, name);
    } else {
      DropRefines(cfg, name, keys, User);
      var c1 := DropIf(cfg, name, keys, User);
      DropRefines(c1, name, keys, Password);
      var c2 := DropIf(c1, name, keys, Password);
      DropRefines(c2, name, keys, Host);
      var c3 := DropIf(c2, name, keys, Host);
      DropRefines(c3, name, keys, Socket);
      DropRefines(DropIf(c3, name, keys, Socket), name, keys, Port);
    }
  }

  /**
   Over any run of commands the edited text is the rendered form of the edited
   sections: names stay unique, and nothing outside the named path changes.
   */
  lemma {:induction false} RunRefines(cfg: Config, cmds: seq<Command>)
    requires Good(cfg) && forall c | c in cmds :: GoodCommand(c)
    ensures Good(PerformAll(cfg, cmds)) && ApplyAll(Render(cfg), cmds) == Render(PerformAll(cfg, cmds))
    decreases |cmds|
  {
    hide Render, Apply, Perform;
    if cmds != [] {
      assert cmds[0] in cmds;
      match cmds[0]
      case Set(name, g) =>
        SetRefines(cfg, name, g);
        RunRefines(Perform(cfg, cmds[0]), cmds[1..]);
      case Remove(name, keys) =>
        RemoveRefines(cfg, name, keys);
        RunRefines(Perform(cfg, cmds[0]), cmds[1..]);
    }
  }

  // ----- what the commands mean --------------------------------------------------------------------------------

  function Names(cfg: Config): seq<string> {
    if cfg == [] then [] else [cfg[0].name] + Names(cfg[1..])
  }

  lemma {:induction false} LookupWithout(cfg: Config, name: string, n: string)
    ensures Lookup(WithoutName(cfg, name), n) == if n == name then None else Lookup(cfg, n)
  {
    if cfg != [] {
      var rest := WithoutName(cfg[1..], name);
      LookupWithout(cfg[1..], name, n);
      assert ([cfg[0]] + rest)[1..] == rest;
      assert [] + rest == rest;
    }
  }

  lemma {:induction false} LookupAppend(cfg: Config, s: Section, n: string)
    ensures Lookup(cfg + [s], n) == if Lookup(cfg, n).Some? then Lookup(cfg, n) else if n == s.name then Some(s.settings) else None
  {
    if cfg == [] {
      assert cfg + [s] == [s];
    } else {
      assert (cfg + [s])[1..] == cfg[1..] + [s];
      LookupAppend(cfg[1..], s, n);
    }
  }

  lemma {:induction false} NamesAppend(cfg: Config, s: Section)
    ensures Names(cfg + [s]) == Names(cfg) + [s.name]
  {
    if cfg == [] {
      assert cfg + [s] == [s];
    } else {
      assert (cfg + [s])[1..] == cfg[1..] + [s];
      NamesAppend(cfg[1..], s);
    }
  }

  /** `set` replaces the settings of its name, moves it last, and leaves all other names as they are. */
  lemma SetMeans(cfg: Config, name: string, g: Given, n: string)
    ensures var after := Perform(cfg, Set(name, g));
            && Lookup(after, n) == (if n == name then Some(Settings(g)) else Lookup(cfg, n))
            && Names(after) == Names(WithoutName(cfg, name)) + [name]
  {
    hide Settings;
    LookupWithout(cfg, name, n);
    LookupAppend(WithoutName(cfg, name), Section(name, Settings(g)), n);
    NamesAppend(WithoutName(cfg, name), Section(name, Settings(g)));
  }

  function KeyIf(ss: seq<Setting>, keys: set<Key>, k: Key): seq<Setting> {
    if k in keys then WithoutKey(ss, k) else ss
  }

  lemma {:induction false} LookupDrop(cfg: Config, name: string, k: Key, n: string)
    ensures Lookup(WithoutKeyOf(cfg, name, k), n) ==
            var was := Lookup(cfg, n); if n == name && was.Some? then Some(WithoutKey(was.value, k)) else was
    ensures Names(WithoutKeyOf(cfg, name, k)) == Names(cfg)
  {
    if cfg != [] { LookupDrop(cfg[1..], name, k, n); }
  }

  lemma DropMeans(cfg: Config, name: string, keys: set<Key>, k: Key, n: string)
    ensures Lookup(DropIf(cfg, name, keys, k), n) ==
            var was := Lookup(cfg, n); if n == name && was.Some? then Some(KeyIf(was.value, keys, k)) else was
    ensures Names(DropIf(cfg, name, keys, k)) == Names(cfg)
  {
    LookupDrop(cfg, name, k, n);
  }

  lemma KeyIfCons(s: Setting, ss: seq<Setting>, keys: set<Key>, k: Key)
    ensures KeyIf([s] + ss, keys, k) == (if k in keys && s.key == k then [] else [s]) + KeyIf(ss, keys, k)
  {
    assert ([s] + ss)[1..] == ss;
    assert [] + KeyIf(ss, keys, k) == KeyIf(ss, keys, k);
  }

  /** The five steps drop exactly the named options. */
  lemma {:induction false} FiveSteps(ss: seq<Setting>, keys: set<Key>)
    ensures KeyIf(KeyIf(KeyIf(KeyIf(KeyIf(ss, keys, User), keys, Password), keys, Host), keys, Socket), keys, Port) == WithoutKeys(ss, keys)
  {
    if ss != [] {
      var s, r := ss[0], ss[1..];
      FiveSteps(r, keys);
      assert ss == [s] + r;
      hide KeyIf;
      StepOn(s, r, keys, User, true);
      var r1 := KeyIf(r, keys, User);
      var b1 := !(User in keys && s.key == User);
      StepOn(s, r1, keys, Password, b1);
      var r2 := KeyIf(r1, keys, Password);
      var b2 := b1 && !(Password in keys && s.key == Password);
      StepOn(s, r2, keys, Host, b2);
      var r3 := KeyIf(r2, keys, Host);
      var b3 := b2 && !(Host in keys && s.key == Host);
      StepOn(s, r3, keys, Socket, b3);
      var r4 := KeyIf(r3, keys, Socket);
      var b4 := b3 && !(Socket in keys && s.key == Socket);
      StepOn(s, r4, keys, Port, b4);
      var b5 := b4 && !(Port in keys && s.key == Port);
      assert b5 <==> s.key !in keys by { match s.key { case User => case Password => case Host => case Socket => case Port => } }
    }
  }

  lemma StepOn(s: Setting, r: seq<Setting>, keys: set<Key>, k: Key, here: bool)
    ensures var kept := here && !(k in keys && s.key == k);
            KeyIf((if here then [s] else []) + r, keys, k) == (if kept then [s] else []) + KeyIf(r, keys, k)
  {
    KeyIfCons(s, r, keys, k);
    assert [] + r == r && [] + KeyIf(r, keys, k) == KeyIf(r, keys, k);
  }

  /** `remove` drops the named options of its path, or the path if none is named, and leaves all else as it is. */
  lemma RemoveMeans(cfg: Config, name: string, keys: set<Key>, n: string)
    ensures var after, was := Perform(cfg, Remove(name, keys)), Lookup(cfg, n);
            && Lookup(after, n) == (if n != name || was.None? then was else if keys == {} then None else Some(WithoutKeys(was.value, keys)))
            && (keys != {} ==> Names(after) == Names(cfg))
  {
    hide KeyIf, DropIf, WithoutKeys;
    LookupWithout(cfg, name, n);
    DropMeans(cfg, name, keys, User, n);
    var c1 := DropIf(cfg, name, keys, User);
    DropMeans(c1, name, keys, Password, n);
    var c2 := DropIf(c1, name, keys, Password);
    DropMeans(c2, name, keys, Host, n);
    var c3 := DropIf(c2, name, keys, Host);
    DropMeans(c3, name, keys, Socket, n);
    DropMeans(DropIf(c3, name, keys, Socket), name, keys, Port, n);
    if Lookup(cfg, n).Some? { FiveSteps(Lookup(cfg, n).value, keys); }
  }
}
