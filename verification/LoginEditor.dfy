/**
 Whole sessions of `mysql_config_editor`: every call reads the encrypted file, edits
 the text and writes the file anew, and `reset` starts a file with a new key.  Over
 any number of calls the file is the encrypted form of the sections the calls meant.
 */
module LoginEditor {
  import opened Bytes
  import opened Wrappers
  import opened LoginText
  import opened LoginSections
  import opened LoginCommands
  import opened LoginBuffer
  import opened LoginFile

  datatype Call = Edit(command: Command) | Reset(key: seq<byte>)

  // ----- on the file -----------------------------------------------------------------------------------

  /** A file that cannot be read stays as it is. */
  function Invoke(aes: seq<byte> -> Cipher, f: seq<byte>, call: Call): seq<byte> {
    match call
    case Reset(key) => FileHeader(key)
    case Edit(command) =>
      match ReadFrames(aes(KeyOf(f)), LoginFile.Body(f))
      case None => f
      case Some(t) => FileHeader(KeyOf(f)) + Frames(aes(KeyOf(f)), Apply(t, command))
  }

  function InvokeAll(aes: seq<byte> -> Cipher, f: seq<byte>, calls: seq<Call>): seq<byte>
    decreases |calls|
  {
    if calls == [] then f else InvokeAll(aes, Invoke(aes, f, calls[0]), calls[1..])
  }

  // ----- on the sections ---------------------------------------------------------------------------------

  function Meant(cfg: Config, call: Call): Config {
    if call.Reset? then [] else Perform(cfg, call.command)
  }

  function MeantAll(cfg: Config, calls: seq<Call>): Config
    decreases |calls|
  {
    if calls == [] then cfg else MeantAll(Meant(cfg, calls[0]), calls[1..])
  }

  // ----- what fits into a frame --------------------------------------------------------------------------

  /** A line that a C program can hold and a frame can take, with its newline. */
  predicate StorableLine(l: string) {
    CText(l) && |l| < 4079
  }

  predicate StorableSection(s: Section) {
    StorableLine(Header(s.name)) && forall x | x in s.settings :: StorableLine(SettingLine(x))
  }

  predicate Storable(cfg: Config) {
    forall s | s in cfg :: StorableSection(s)
  }

  predicate StorableCall(call: Call) {
    match call
    case Reset(key) => |key| == LOGIN_KEY_LEN
    case Edit(command) =>
      GoodCommand(command) && (command.Set? ==> StorableSection(Section(command.name, Settings(command.given))))
  }

  predicate StorableLines(lines: seq<string>) {
    forall l | l in lines :: StorableLine(l)
  }

  lemma {:induction false} SettingsStorable(ss: seq<Setting>)
    requires forall x | x in ss :: StorableLine(SettingLine(x))
    ensures StorableLines(SettingLines(ss))
  {
    hide StorableLine, SettingLine;
    if ss != [] {
      assert ss[0] in ss && forall x | x in ss[1..] :: x in ss;
      SettingsStorable(ss[1..]);
    }
  }

  lemma {:induction false} ConfigStorable(cfg: Config)
    requires Storable(cfg)
    ensures StorableLines(ConfigLines(cfg))
  {
    hide StorableLine, Header, SettingLines;
    if cfg != [] {
      assert cfg[0] in cfg && forall s | s in cfg[1..] :: s in cfg;
      ConfigStorable(cfg[1..]);
      SettingsStorable(cfg[0].settings);
    }
  }

  /** Lines that fit make a text that fits. */
  lemma {:induction false} JoinFits(lines: seq<string>)
    requires AreLines(lines) && StorableLines(lines)
    ensures CText(Join(lines)) && Fits(Join(lines)) && Terminated(Join(lines))
  {
    hide LineLength, TooLong;
    if lines == [] {
      LineLengthSplits("");
    } else {
      var l, rest := lines[0], lines[1..];
      assert l in lines && forall x | x in rest :: x in lines;
      JoinFits(rest);
      var t := Join(lines);
      assert t == l + ("\n" + Join(rest));
      LineLengthIs(l, Join(rest));
      LongestLine(|l| + 1);
      assert t[|l| + 1..] == Join(rest);
    }
  }

  lemma StoredText(cfg: Config)
    requires Good(cfg) && Storable(cfg)
    ensures var t := Render(cfg); CText(t) && Fits(t) && Terminated(t)
  {
    hide ConfigLines, Join, StorableLines, Fits, CText;
    ConfigAreLines(cfg);
    ConfigStorable(cfg);
    JoinFits(ConfigLines(cfg));
  }

  // ----- the calls keep it -------------------------------------------------------------------------------

  lemma {:induction false} DropStorable(cfg: Config, name: string, k: Key)
    requires Storable(cfg)
    ensures Storable(WithoutKeyOf(cfg, name, k))
  {
    hide StorableLine;
    if cfg != [] {
      assert cfg[0] in cfg && forall s | s in cfg[1..] :: s in cfg;
      DropStorable(cfg[1..], name, k);
      WithoutKeyIn(cfg[0].settings, k);
    }
  }

  lemma DropIfStorable(cfg: Config, name: string, keys: set<Key>, k: Key)
    requires Storable(cfg)
    ensures Storable(DropIf(cfg, name, keys, k))
  {
    hide Storable, WithoutKeyOf;
    DropStorable(cfg, name, k);
  }

  lemma PerformStorable(cfg: Config, command: Command)
    requires Storable(cfg) && StorableCall(Edit(command))
    ensures Storable(Perform(cfg, command))
  {
    hide StorableSection, DropIf, GoodCommand;
    WithoutNameIn(cfg, command.name);
    match command
    case Set(name, g) =>
    case Remove(name, keys) =>
      hide Storable;
      DropIfStorable(cfg, name, keys, User);
      var c1 := DropIf(cfg, name, keys, User);
      DropIfStorable(c1, name, keys, Password);
      var c2 := DropIf(c1, name, keys, Password);
      DropIfStorable(c2, name, keys, Host);
      var c3 := DropIf(c2, name, keys, Host);
      DropIfStorable(c3, name, keys, Socket);
      DropIfStorable(DropIf(c3, name, keys, Socket), name, keys, Port);
  }

  /** The file is the encrypted form of these sections, under the key it carries. */
  ghost predicate Holds(aes: seq<byte> -> Cipher, f: seq<byte>, cfg: Config) {
    && Good(cfg) && Storable(cfg)
    && |KeyOf(f)| == LOGIN_KEY_LEN && f == FileHeader(KeyOf(f)) + Frames(aes(KeyOf(f)), Render(cfg))
  }

  ghost predicate AllWork(aes: seq<byte> -> Cipher) {
    forall key: seq<byte> | |key| == LOGIN_KEY_LEN :: Works(aes(key))
  }

  lemma KeyBack(key: seq<byte>, rest: seq<byte>)
    requires |key| == LOGIN_KEY_LEN
    ensures KeyOf(FileHeader(key) + rest) == key && LoginFile.Body(FileHeader(key) + rest) == rest
  {
    var f := FileHeader(key) + rest;
    assert f[4..24] == key && f[24..] == rest;
  }

  /** Such a file is read back as the text of its sections, by either reader. */
  lemma HeldIsRead(aes: seq<byte> -> Cipher, f: seq<byte>, cfg: Config)
    requires AllWork(aes) && Holds(aes, f, cfg)
    ensures ReadFrames(aes(KeyOf(f)), LoginFile.Body(f)) == Some(Render(cfg))
    ensures DecryptFrames(aes(KeyOf(f)), LoginFile.Body(f)) == Some(Render(cfg))
  {
    hide Render, Frames, ReadFrames, DecryptFrames, Works, Fits, CText, Good, Storable, KeyOf, LoginFile.Body;
    StoredText(cfg);
    FileRoundTrip(aes, KeyOf(f), Render(cfg));
  }

  /** There are ciphers that work under every key. */
  lemma SomeWork()
    ensures AllWork(_ => Cipher(Pad, Unpad))
  {
    PaddingWorks();
  }

  lemma NewFile(aes: seq<byte> -> Cipher, key: seq<byte>)
    requires |key| == LOGIN_KEY_LEN
    ensures Holds(aes, FileHeader(key), [])
  {
    hide KeyOf, FileHeader;
    KeyBack(key, []);
    assert FileHeader(key) + [] == FileHeader(key);
    assert Render([]) == "" && Frames(aes(key), "") == [];
  }

  lemma CallKeeps(aes: seq<byte> -> Cipher, f: seq<byte>, cfg: Config, call: Call)
    requires AllWork(aes) && Holds(aes, f, cfg) && StorableCall(call)
    ensures Holds(aes, Invoke(aes, f, call), Meant(cfg, call))
  {
    match call
    case Reset(key) => NewFile(aes, key);
    case Edit(command) =>
      hide Render, Apply, Perform, Frames, ReadFrames, Works, Good, Storable, KeyOf, LoginFile.Body, FileHeader, AllWork;
      HeldIsRead(aes, f, cfg);
      EditRefines(cfg, command);
      PerformStorable(cfg, command);
      KeyBack(KeyOf(f), Frames(aes(KeyOf(f)), Render(Perform(cfg, command))));
  }

  lemma EditRefines(cfg: Config, command: Command)
    requires Good(cfg) && GoodCommand(command)
    ensures Good(Perform(cfg, command)) && Apply(Render(cfg), command) == Render(Perform(cfg, command))
  {
    hide Render, Apply, Perform, Good;
    match command
    case Set(name, g) => SetRefines(cfg, name, g);
    case Remove(name, keys) => RemoveRefines(cfg, name, keys);
  }

  /**
   Over any number of calls, each of which reads and rewrites the encrypted file, the
   file stays the encrypted form of the sections that the calls meant.
   */
  lemma {:induction false} CallsKeep(aes: seq<byte> -> Cipher, f: seq<byte>, cfg: Config, calls: seq<Call>)
    requires AllWork(aes) && Holds(aes, f, cfg) && forall c | c in calls :: StorableCall(c)
    ensures Holds(aes, InvokeAll(aes, f, calls), MeantAll(cfg, calls))
    decreases |calls|
  {
    hide AllWork, Holds, StorableCall, Invoke, Meant;
    if calls != [] {
      assert calls[0] in calls && forall c | c in calls[1..] :: c in calls;
      CallKeeps(aes, f, cfg, calls[0]);
      CallsKeep(aes, Invoke(aes, f, calls[0]), Meant(cfg, calls[0]), calls[1..]);
    }
  }

  // ----- the program ---------------------------------------------------------------------------------------

  /** What `set_command` and `remove_command` do, when the user does not decline; -1 is `!ok`. */
  method RunCommand(ghost aes: seq<byte> -> Cipher, store: LoginStore, command: Command) returns (ok: bool)
    requires store.key == KeyOf(store.data) && store.cipher == aes(store.key)
    requires command.Set? ==> '\0' !in command.name && var g := command.given;
               NulFree(g.user) && NulFree(g.password) && NulFree(g.host) && NulFree(g.socket) && NulFree(g.port)
    requires command.Remove? ==> var t := ReadFrames(store.cipher, LoginFile.Body(store.data));
               t.Some? ==> OptionsEnd(t.value, command.name, command.keys)
    modifies store`data
    ensures store.data == Invoke(aes, old(store.data), Edit(command))
    ensures var t := old(ReadFrames(store.cipher, LoginFile.Body(store.data))); ok <==> t.Some? && Fits(Apply(t.value, command))
  {
    hide ReadFrames, Frames, Apply, Fits, KeyOf, LoginFile.Body, FileHeader, OptionsEnd;
    ghost var read := ReadFrames(store.cipher, LoginFile.Body(store.data));
    var buf := new DynamicString("", 4096);
    ok := store.ReadAndDecryptFile(buf);
    if !ok {
      return;
    }
    assert buf.Text() == "" + read.value == read.value;
    match command
    case Set(name, g) =>
      SetCommand(buf, name, g);
      ok := store.EncryptAndWriteFile(buf);
    case Remove(name, keys) =>
      buf.RemoveOptions(name, keys);
      ok := store.EncryptAndWriteFile(buf);
  }
}
