/**
 `mysql_config_editor` on its buffer: a NUL-terminated array of characters that is
 searched and closed up in place.  Every method does to the text what the function
 of the same name in `LoginText` says.
 */
module LoginBuffer {
  import opened Wrappers
  import opened LoginText
  import opened LoginSections
  import opened LoginCommands

  // ----- searching from a place on ----------------------------------------------------------------------

  /** `p` does not occur in `t` at any place in [from, end). */
  ghost predicate NotBetween(t: string, from: nat, end: nat, p: string) {
    forall i | from <= i < end && i <= |t| :: !(p <= t[i..])
  }

  lemma {:induction false} FindFrom(t: string, from: nat, k: nat, p: string)
    requires from <= k <= |t| && NotBetween(t, from, k, p)
    ensures Find(t[from..], p) == Later(Find(t[k..], p), k - from)
    decreases k - from
  {
    if from < k {
      FindFrom(t, from + 1, k, p);
      assert t[from..][1..] == t[from + 1..];
      assert !(p <= t[from..]);
    }
  }

  lemma FindHere(s: string, p: string)
    ensures p <= s ==> Find(s, p) == Some(0)
    ensures |s| < |p| ==> Find(s, p) == None
  {
    if |s| < |p| && s != "" { FindHere(s[1..], p); }
  }

  /** Behind a place where `p` does not occur, up to the next newline, it does not occur either. */
  lemma NoNewline(t: string, from: nat, end: nat, p: string)
    requires from < end <= |t| && p != "" && p[0] == '\n' && !(p <= t[from..]) && '\n' !in t[from + 1..end]
    ensures NotBetween(t, from, end, p)
  {
    forall i | from < i < end ensures !(p <= t[i..]) {
      assert t[from + 1..end][i - from - 1] == t[i] == t[i..][0];
    }
  }

  class DynamicString {
    var str: array<char>
    var length: nat

    ghost predicate Valid()
      reads this, str
    {
      length < str.Length && str[length] == '\0' && '\0' !in str[..length]
    }

    ghost function Text(): string
      requires length <= str.Length
      reads this, str
    {
      str[..length]
    }

    /** `init_dynamic_string` */
    constructor (init: string, initAlloc: nat)
      requires '\0' !in init
      ensures Valid() && Text() == init && fresh(str)
    {
      var size := if initAlloc > |init| then initAlloc else |init| + 1;
      str := new char[size](i => if 0 <= i < |init| then init[i] else '\0');
      length := |init|;
      new;
      assert str[..length] == init;
    }

    /** `dynstr_append`, which moves to a larger array when the text does not fit. */
    method Append(s: string)
      requires Valid() && '\0' !in s
      modifies this, str
      ensures Valid() && Text() == old(Text()) + s && (str == old(str) || fresh(str))
    {
      ghost var before := Text();
      if length + |s| + 1 > str.Length {
        Grow(length + |s| + 1);
      }
      assert str[..length] == before;
      forall i | 0 <= i < |s| {
        str[length + i] := s[i];
      }
      assert str[..length] == before;
      length := length + |s|;
      str[length] := '\0';
      assert str[..length] == before + s;
    }

    method Grow(size: nat)
      requires Valid() && size > str.Length
      modifies this
      ensures Valid() && Text() == old(Text()) && fresh(str) && str.Length == size && length == old(length)
    {
      var bigger := new char[size](_ => '\0');
      forall i | 0 <= i < length {
        bigger[i] := str[i];
      }
      assert bigger[..length] == str[..length];
      str := bigger;
    }

    /** `strstr` from a place on. */
    method Strstr(from: nat, pat: string) returns (r: Option<nat>)
      requires Valid() && from <= length && pat != ""
      ensures r == Later(Find(Text()[from..], pat), from)
    {
      hide Find;
      var i := from;
      while i + |pat| <= length
        invariant from <= i <= length && NotBetween(Text(), from, i, pat)
      {
        assert Text()[i..][..|pat|] == str[i..i + |pat|];
        if str[i..i + |pat|] == pat {
          FindFrom(Text(), from, i, pat);
          FindHere(Text()[i..], pat);
          return Some(i);
        }
        i := i + 1;
      }
      FindFrom(Text(), from, i, pat);
      FindHere(Text()[i..], pat);
      return None;
    }

    /** `locate_login_path` */
    method LocateLoginPath(name: string) returns (addr: Option<nat>)
      requires Valid()
      ensures addr == Locate(Text(), name)
    {
      hide Find;
      var header := Header(name);
      if |header| <= length && str[..|header|] == header {
        assert Text()[..|header|] == header;
        return Some(0);
      }
      assert header <= Text() ==> Text()[..|header|] == header;
      assert Text()[0..] == Text();
      addr := Strstr(0, "\n" + header);
      if addr.Some? {
        addr := Some(addr.value + 1);
      }
    }

    /** Moves what stands from `end` on to `start`, and ends the text behind it. */
    method CloseUp(start: nat, end: nat)
      requires Valid() && start <= end <= length
      modifies this, str
      ensures Valid() && str == old(str) && Text() == old(Text())[..start] + old(Text())[end..]
    {
      ghost var was := Text();
      var s, e, toMove := start, end, length - end;
      while toMove > 0
        invariant start <= s <= e <= length == |was| < str.Length && end <= e
        invariant str == old(str) && length == old(length) && s - start == e - end && toMove == length - e
        invariant str[..s] == was[..start] + was[end..e] && str[e..length] == was[e..]
      {
        assert str[e] == str[e..length][0] == was[e];
        str[s] := str[e];
        assert was[end..e + 1] == was[end..e] + [was[e]];
        s, e, toMove := s + 1, e + 1, toMove - 1;
      }
      str[s] := '\0';
      length := s;
      assert str[..length] == was[..start] + was[end..];
    }

    /** `remove_login_path` */
    method RemoveLoginPath(name: string)
      requires Valid()
      modifies this, str
      ensures Valid() && str == old(str) && Text() == RemovePath(old(Text()), name)
    {
      hide Locate, Find;
      var start := LocateLoginPath(name);
      if start.None? {
        return;
      }
      var end := Strstr(start.value, "\n[");
      if end.Some? {
        CloseUp(start.value, end.value + 1);
      } else {
        CloseUp(start.value, length);
      }
    }

    /** Moves to the next newline, but not to the last character of the search. */
    method NextLine(start: nat, searchLen: nat) returns (s: nat, n: nat)
      requires Valid() && searchLen > 1 && start + searchLen <= length
      ensures n > 1 ==> start < s && s + n == start + searchLen && str[s] == '\n'
      ensures n <= 1 ==> n == 1
      ensures '\n' !in str[start + 1..if n > 1 then s else start + searchLen - 1]
    {
      s, n := start, searchLen - 1;
      while n > 1
        invariant 0 < n < searchLen && start <= s && s + n == start + searchLen - 1
        invariant '\n' !in str[start + 1..s + 1]
      {
        s := s + 1;
        if str[s] == '\n' {
          return;
        }
        n := n - 1;
      }
    }

    /** Is `p` here? (`strncmp`) */
    method Compare(s: nat, p: string) returns (same: bool)
      requires Valid() && s <= length
      ensures same <==> p <= Text()[s..]
    {
      same := s + |p| <= length && str[s..s + |p|] == p;
      if s + |p| <= length { assert Text()[s..][..|p|] == str[s..s + |p|]; }
    }

    /** The loop of `remove_option` that looks for the option line by line. */
    method FindOptionLine(start: nat, searchLen: nat, option: string) returns (r: Option<nat>)
      requires Valid() && start + searchLen <= length && option != ""
      ensures r == Later(Bounded(Find(Text()[start..], "\n" + option), if searchLen > 0 then searchLen - 1 else 0), start)
    {
      hide Find;
      var s, n, p := start, searchLen, "\n" + option;
      ghost var t, limit := Text(), if searchLen > 0 then start + searchLen - 1 else start;
      ghost var seen := start;
      while n > 1
        invariant start <= seen <= limit && NotBetween(t, start, seen, p)
        invariant if n > 1 then seen == s && s + n == start + searchLen else seen == limit
        decreases n
      {
        var here := Compare(s, p);
        if here {
          FindFrom(t, start, s, p);
          FindHere(t[s..], p);
          return Some(s);
        }
        s, n := NextLine(s, n);
        seen := NextSeen(t, start, seen, if n > 1 then s else limit, p);
      }
      FindFrom(t, start, limit, p);
      return None;
    }

    /** The newline behind the line that the newline at `k` begins. */
    method EndOfLine(k: nat) returns (end: nat)
      requires Valid() && k < length && k + 1 + LineLength(Text()[k + 1..]) < length
      ensures end == k + 1 + LineLength(Text()[k + 1..])
    {
      hide LineLength;
      end := k + 1;
      ghost var t := Text();
      ghost var n := LineLength(t[k + 1..]);
      LineLengthSplits(t[k + 1..]);
      assert t[k + 1..][n] == t[k + 1 + n];
      assert t[k + 1..][..n] == t[k + 1..k + 1 + n];
      assert forall i | k + 1 <= i < k + 1 + n :: t[i] != '\n';
      while str[end] != '\n'
        invariant k + 1 <= end <= k + 1 + n
        decreases length - end
      {
        end := end + 1;
      }
    }

    /** `remove_option`, which runs past a text in which no newline follows the option. */
    method RemoveOption(name: string, option: string)
      requires Valid() && OptionEnds(Text(), name, option) && option != ""
      modifies this, str
      ensures Valid() && str == old(str) && Text() == LoginText.RemoveOption(old(Text()), name, option)
    {
      hide Locate, Find, LineLength;
      var start := LocateLoginPath(name);
      if start.None? {
        return;
      }
      var next := Strstr(start.value, "\n[");
      var searchLen := if next.Some? then next.value - start.value else length - start.value;
      var k := FindOptionLine(start.value, searchLen, option);
      if k.Some? {
        var end := EndOfLine(k.value);
        CloseUp(k.value, end);
      }
    }

    method RemoveOptionIf(name: string, keys: set<Key>, k: Key)
      requires Valid() && KeyEnds(Text(), name, keys, k)
      modifies this, str
      ensures Valid() && str == old(str) && Text() == RemoveIf(old(Text()), name, keys, k)
    {
      hide LoginText.RemoveOption, OptionEnds;
      if k in keys {
        RemoveOption(name, KeyName(k));
      }
    }

    /** `remove_options` */
    method RemoveOptions(name: string, keys: set<Key>)
      requires Valid() && OptionsEnd(Text(), name, keys)
      modifies this, str
      ensures Valid() && str == old(str) && Text() == Apply(old(Text()), Remove(name, keys))
    {
      hide RemovePath, RemoveIf, KeyEnds;
      if keys == {} {
        RemoveLoginPath(name);
        return;
      }
      RemoveOptionIf(name, keys, User);
      RemoveOptionIf(name, keys, Password);
      RemoveOptionIf(name, keys, Host);
      RemoveOptionIf(name, keys, Socket);
      RemoveOptionIf(name, keys, Port);
    }

    method AppendOption(k: Key, value: Option<string>)
      requires Valid() && NulFree(value)
      modifies this, str
      ensures Valid() && Text() == old(Text()) + OptionText(k, value) && (str == old(str) || fresh(str))
    {
      if value.Some? {
        Append(OptionText(k, value));
      }
    }
  }

  /** The new path in a buffer of its own. */
  method NewPath(name: string, g: Given) returns (path: DynamicString)
    requires '\0' !in name && NulFree(g.user) && NulFree(g.password) && NulFree(g.host) && NulFree(g.socket) && NulFree(g.port)
    ensures path.Valid() && path.Text() == PathText(name, g) && fresh(path) && fresh(path.str)
  {
    hide OptionText;
    path := new DynamicString("", 4096);
    path.Append(Header(name));
    path.AppendOption(User, g.user);
    path.AppendOption(Password, g.password);
    AppendRest(path, g.host, g.socket, g.port);
  }

  method AppendRest(path: DynamicString, host: Option<string>, socket: Option<string>, port: Option<string>)
    requires path.Valid() && NulFree(host) && NulFree(socket) && NulFree(port)
    modifies path, path.str
    ensures path.Valid() && (path.str == old(path.str) || fresh(path.str))
    ensures path.Text() == old(path.Text()) + OptionText(Host, host) + OptionText(Socket, socket) + OptionText(Port, port) + "\n"
  {
    hide OptionText;
    path.AppendOption(Host, host);
    path.AppendOption(Socket, socket);
    path.AppendOption(Port, port);
    path.Append("\n");
  }

  /** `set_command` between reading the file and writing it, when the user does not decline. */
  method SetCommand(file: DynamicString, name: string, g: Given)
    requires file.Valid()
    requires '\0' !in name && NulFree(g.user) && NulFree(g.password) && NulFree(g.host) && NulFree(g.socket) && NulFree(g.port)
    modifies file, file.str
    ensures file.Valid() && file.Text() == Apply(old(file.Text()), Set(name, g))
  {
    hide PathText, RemovePath;
    var path := NewPath(name, g);
    file.RemoveLoginPath(name);
    file.Append(path.str[..path.length]);
  }

  predicate NulFree(v: Option<string>) {
    v.Some? ==> '\0' !in v.value
  }

  predicate Terminated(t: string) {
    t != "" ==> t[|t| - 1] == '\n'
  }

  /** A newline follows the option that the search finds. */
  predicate OptionEnds(t: string, name: string, option: string) {
    var place := Locate(t, name);
    place.Some? ==>
      var found := Later(FindOption(t[place.value..], option), place.value);
      found.Some? ==> found.value + 1 + LineLength(t[found.value + 1..]) < |t|
  }

  predicate KeyEnds(t: string, name: string, keys: set<Key>, k: Key) {
    k in keys ==> OptionEnds(t, name, KeyName(k))
  }

  /** A newline follows each option that `remove_options` finds, in the text it finds it in. */
  predicate OptionsEnd(t: string, name: string, keys: set<Key>) {
    var withoutUser := RemoveIf(t, name, keys, User);
    var withoutPassword := RemoveIf(withoutUser, name, keys, Password);
    var withoutHost := RemoveIf(withoutPassword, name, keys, Host);
    var withoutSocket := RemoveIf(withoutHost, name, keys, Socket);
    && KeyEnds(t, name, keys, User) && KeyEnds(withoutUser, name, keys, Password)
    && KeyEnds(withoutPassword, name, keys, Host) && KeyEnds(withoutHost, name, keys, Socket)
    && KeyEnds(withoutSocket, name, keys, Port)
  }

  /** In a text that ends with a newline every option does, so that any of them can be removed. */
  lemma LinesEnd(t: string, name: string, keys: set<Key>)
    requires Terminated(t)
    ensures OptionsEnd(t, name, keys) && (keys != {} ==> Terminated(Apply(t, Remove(name, keys))))
  {
    hide KeyEnds, RemoveIf, Terminated, RemovePath;
    KeyLineEnds(t, name, keys, User);
    var withoutUser := RemoveIf(t, name, keys, User);
    KeyLineEnds(withoutUser, name, keys, Password);
    var withoutPassword := RemoveIf(withoutUser, name, keys, Password);
    KeyLineEnds(withoutPassword, name, keys, Host);
    var withoutHost := RemoveIf(withoutPassword, name, keys, Host);
    KeyLineEnds(withoutHost, name, keys, Socket);
    KeyLineEnds(RemoveIf(withoutHost, name, keys, Socket), name, keys, Port);
  }

  lemma KeyLineEnds(t: string, name: string, keys: set<Key>, k: Key)
    requires Terminated(t)
    ensures KeyEnds(t, name, keys, k) && Terminated(RemoveIf(t, name, keys, k))
  {
    hide OptionEnds, LoginText.RemoveOption, Terminated;
    LineEnds(t, name, KeyName(k));
  }

  lemma LineEnds(t: string, name: string, option: string)
    requires Terminated(t)
    ensures OptionEnds(t, name, option) && Terminated(LoginText.RemoveOption(t, name, option))
  {
    hide Locate, LineLength, Find;
    var place := Locate(t, name);
    if place.Some? {
      var found := Later(FindOption(t[place.value..], option), place.value);
      if found.Some? {
        var rest := t[found.value + 1..];
        LineLengthSplits(rest);
        assert rest != "" ==> rest[|rest| - 1] == '\n';
        assert rest[..|rest|] == rest;
      }
    }
  }

  lemma {:induction false} LineLengthSplits(t: string)
    ensures var n := LineLength(t); '\n' !in t[..n] && (n < |t| ==> t[n] == '\n')
  {
    if t != "" && t[0] != '\n' {
      LineLengthSplits(t[1..]);
      var n := LineLength(t);
      assert t[..n] == [t[0]] + t[1..][..n - 1];
    }
  }

  lemma NextSeen(t: string, start: nat, seen: nat, next: nat, p: string) returns (r: nat)
    requires start <= seen < next <= |t| && NotBetween(t, start, seen, p) && p != "" && p[0] == '\n'
    requires !(p <= t[seen..]) && '\n' !in t[seen + 1..next]
    ensures r == next && NotBetween(t, start, r, p)
  {
    NoNewline(t, seen, next, p);
    r := next;
  }
}
