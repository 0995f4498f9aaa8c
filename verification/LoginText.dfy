/**
 The text of the login file as `mysql_config_editor` edits it: substring searches
 and cuts in one long string.  The lemmas here show what the cuts do to the lines
 of any text that ends with a newline.
 */
module LoginText {
  import opened Sequences
  import opened Wrappers

  // ----- searching -----------------------------------------------------------------------------------

  function Later(r: Option<nat>, n: nat): Option<nat> {
    if r.None? then None else Some(n + r.value)
  }

  /** `strstr`: where `p` first occurs in `s`. */
  function Find(s: string, p: string): (r: Option<nat>)
    ensures r.Some? ==> r.value + |p| <= |s|
  {
    if p <= s then Some(0) else if s == "" then None else Later(Find(s[1..], p), 1)
  }

  /** The first place where the text stands, if there is one. */
  lemma {:induction false} FindIs(s: string, p: string)
    ensures var r := Find(s, p);
            && (r.Some? ==> r.value <= |s| && p <= s[r.value..])
            && forall i | 0 <= i < (if r.Some? then r.value else |s| + 1) :: !(p <= s[i..])
  {
    assert s[0..] == s;
    if !(p <= s) && s != "" {
      FindIs(s[1..], p);
      forall i | 1 <= i <= |s| ensures s[i..] == s[1..][i - 1..] {}
    }
  }

  function Header(name: string): string {
    "[" + name + "]"
  }

  /** `locate_login_path` */
  function Locate(t: string, name: string): (r: Option<nat>)
    ensures r.Some? ==> r.value <= |t|
  {
    if Header(name) <= t then Some(0) else Later(Find(t, "\n" + Header(name)), 1)
  }

  /** The header stands here, at the start of a line. */
  predicate HeaderAt(t: string, name: string, i: nat) {
    i <= |t| && Header(name) <= t[i..] && (i == 0 || t[i - 1] == '\n')
  }

  /** On any text the path is located at the first such place. */
  lemma LocateIs(t: string, name: string)
    ensures var r := Locate(t, name);
            && (r.Some? ==> HeaderAt(t, name, r.value))
            && forall i: nat :: HeaderAt(t, name, i) ==> r.Some? && r.value <= i
  {
    hide Find;
    var h := Header(name);
    var p := "\n" + h;
    FindIs(t, p);
    assert t[0..] == t;
    forall i: nat | i < |t| ensures p <= t[i..] <==> t[i] == '\n' && h <= t[i + 1..] {
      assert t[i..] == [t[i]] + t[i + 1..];
      assert p[0] == '\n' && p[1..] == h;
      if p <= t[i..] { assert t[i + 1..][..|h|] == t[i..][..|p|][1..]; }
      if t[i] == '\n' && h <= t[i + 1..] { assert t[i..][..|p|] == ['\n'] + t[i + 1..][..|h|]; }
    }
  }

  /** The lines of a path end with the newline before the next header, or with the text. */
  function PathLength(s: string): (n: nat)
    ensures n <= |s|
  {
    match Find(s, "\n[")
    case None => |s|
    case Some(i) => i + 1
  }

  /** `remove_login_path` */
  function RemovePath(t: string, name: string): string {
    CutPath(t, Locate(t, name))
  }

  function CutPath(t: string, place: Option<nat>): string
    requires place.Some? ==> place.value <= |t|
  {
    match place
    case None => t
    case Some(start) => t[..start] + t[start + PathLength(t[start..])..]
  }

  /** How far a search for an option goes: not to the last character before the next header or the end. */
  function SearchLength(n: nat, next: Option<nat>): nat {
    var end := if next.None? then n else next.value;
    if end > 0 then end - 1 else 0
  }

  function FindOption(s: string, option: string): (r: Option<nat>)
    ensures r.Some? ==> r.value < |s|
  {
    Bounded(Find(s, "\n" + option), SearchLength(|s|, Find(s, "\n[")))
  }

  function Bounded(r: Option<nat>, n: nat): (b: Option<nat>)
    ensures b.Some? ==> b == r
  {
    if r.Some? && r.value < n then r else None
  }

  function LineLength(s: string): (n: nat)
    ensures n <= |s|
  {
    if s == "" || s[0] == '\n' then 0 else 1 + LineLength(s[1..])
  }

  /** `remove_option` */
  function RemoveOption(t: string, name: string, option: string): string {
    var place := Locate(t, name);
    if place.None? then t else CutOption(t, Later(FindOption(t[place.value..], option), place.value))
  }

  /** Cuts from the newline before the option to the newline behind it. */
  function CutOption(t: string, place: Option<nat>): string
    requires place.Some? ==> place.value < |t|
  {
    if place.None? then t else Without(t, place.value, 1 + LineLength(t[place.value + 1..]))
  }

  function Without(t: string, k: nat, n: nat): string
    requires k + n <= |t|
  {
    t[..k] + t[k + n..]
  }

  // ----- lines -----------------------------------------------------------------------------------------

  ghost predicate AreLines(lines: seq<string>) {
    forall l | l in lines :: '\n' !in l
  }

  function Join(lines: seq<string>): string {
    if lines == [] then "" else lines[0] + "\n" + Join(lines[1..])
  }

  lemma {:induction false} JoinAppend(a: seq<string>, b: seq<string>)
    ensures Join(a + b) == Join(a) + Join(b)
  {
    if a == [] {
      assert a + b == b;
    } else {
      JoinAppend(a[1..], b);
      assert (a + b)[1..] == a[1..] + b;
      Assoc(a[0] + "\n", Join(a[1..]), Join(b));
    }
  }

  lemma JoinCons(l: string, rest: seq<string>)
    ensures Join([l] + rest) == l + "\n" + Join(rest)
  {
    assert ([l] + rest)[1..] == rest;
  }

  /** A text without a newline starts joined lines exactly if it starts the first of them. */
  lemma PrefixOfJoin(lines: seq<string>, q: string)
    requires '\n' !in q && q != ""
    ensures q <= Join(lines) <==> lines != [] && q <= lines[0]
  {
    if lines != [] {
      var l, t := lines[0], Join(lines);
      assert t[|l|] == '\n' && t[..|l|] == l;
      if q <= t && |q| <= |l| { assert q == t[..|q|] == l[..|q|]; }
      if q <= l { assert t[..|q|] == l[..|q|]; }
    }
  }

  lemma AfterNewline(r: string, q: string)
    ensures "\n" + q <= "\n" + r <==> q <= r
  {
    assert ("\n" + q)[1..] == q && ("\n" + r)[1..] == r;
    if "\n" + q <= "\n" + r {
      assert ("\n" + r)[..1 + |q|] == "\n" + q;
      assert r[..|q|] == ("\n" + r)[1..1 + |q|] == q;
    }
    if q <= r {
      assert r[..|q|] == q && ("\n" + r)[..1 + |q|] == "\n" + r[..|q|];
    }
  }

  /** A search for a newline and more skips a line. */
  lemma {:induction false} SkipLine(l: string, r: string, p: string)
    requires '\n' !in l && p != "" && p[0] == '\n'
    ensures Find(l + r, p) == Later(Find(r, p), |l|)
  {
    if l == "" {
      assert l + r == r;
    } else {
      assert (l + r)[1..] == l[1..] + r && (l + r)[0] == l[0];
      SkipLine(l[1..], r, p);
    }
  }

  /** The lines before the first one that starts with `q`, and the lines from there on. */
  function Skipped(lines: seq<string>, q: string): seq<string> {
    if lines == [] || q <= lines[0] then [] else [lines[0]] + Skipped(lines[1..], q)
  }

  function Seek(lines: seq<string>, q: string): seq<string> {
    if lines == [] || q <= lines[0] then lines else Seek(lines[1..], q)
  }

  lemma {:induction false} SeekSplits(lines: seq<string>, q: string)
    ensures lines == Skipped(lines, q) + Seek(lines, q)
    ensures Seek(lines, q) != [] ==> q <= Seek(lines, q)[0]
  {
    if lines != [] && !(q <= lines[0]) { SeekSplits(lines[1..], q); }
  }

  lemma JoinSplits(lines: seq<string>, q: string)
    ensures Join(lines) == Join(Skipped(lines, q)) + Join(Seek(lines, q))
  {
    SeekSplits(lines, q);
    JoinAppend(Skipped(lines, q), Seek(lines, q));
  }

  /** From a line on, the search finds the newline before the next line that starts with `q`. */
  lemma {:induction false} FindLine(l: string, rest: seq<string>, q: string)
    requires '\n' !in l && AreLines(rest) && '\n' !in q && q != ""
    ensures Find(l + ("\n" + Join(rest)), "\n" + q) ==
            if Seek(rest, q) == [] then None else Some(|l| + |Join(Skipped(rest, q))|)
    decreases |rest|
  {
    var p, r := "\n" + q, "\n" + Join(rest);
    SkipLine(l, r, p);
    AfterNewline(Join(rest), q);
    PrefixOfJoin(rest, q);
    if rest == [] || !(q <= rest[0]) {
      assert r[1..] == Join(rest);
      assert Find(r, p) == Later(Find(Join(rest), p), 1);
      FindRest(rest, q);
    }
  }

  lemma {:induction false} FindRest(rest: seq<string>, q: string)
    requires AreLines(rest) && '\n' !in q && q != "" && (rest == [] || !(q <= rest[0]))
    ensures Find(Join(rest), "\n" + q) == if Seek(rest, q) == [] then None else Some(|Join(Skipped(rest, q))| - 1)
    decreases |rest|, 0
  {
    if rest != [] {
      var l, more := rest[0], rest[1..];
      assert l in rest;
      FindLine(l, more, q);
      Assoc(l, "\n", Join(more));
      JoinCons(l, Skipped(more, q));
    }
  }

  // ----- what the edits do to the lines ----------------------------------------------------------------------

  /** Without the section of the header: up to the next line that starts with a bracket. */
  function WithoutSection(lines: seq<string>, header: string): seq<string> {
    var s := Seek(lines, header);
    if s == [] then lines else Skipped(lines, header) + Seek(s[1..], "[")
  }

  /** Without the first line that starts with the option, before the next header. */
  function WithoutOption(lines: seq<string>, option: string): seq<string> {
    var o := Seek(lines, option);
    if |o| <= |Seek(lines, "[")| then lines else Skipped(lines, option) + o[1..]
  }

  function WithoutOptionOf(lines: seq<string>, header: string, option: string): seq<string> {
    var s := Seek(lines, header);
    if s == [] then lines else Skipped(lines, header) + ([s[0]] + WithoutOption(s[1..], option))
  }

  lemma LocateLine(lines: seq<string>, name: string)
    requires AreLines(lines) && '\n' !in name
    ensures Locate(Join(lines), name) ==
            if Seek(lines, Header(name)) == [] then None else Some(|Join(Skipped(lines, Header(name)))|)
  {
    PrefixOfJoin(lines, Header(name));
    if lines == [] || !(Header(name) <= lines[0]) {
      FindRest(lines, Header(name));
      if Seek(lines, Header(name)) != [] { JoinNotEmpty(Skipped(lines, Header(name))); }
    }
  }

  lemma JoinNotEmpty(lines: seq<string>)
    ensures Join(lines) == "" <==> lines == []
  {
  }

  /** The text in parts: what is cut is `y`. */
  lemma CutMiddle(x: string, y: string, z: string)
    requires PathLength(y + z) == |y|
    ensures CutPath(x + (y + z), Some(|x|)) == x + z
  {
    var t := x + (y + z);
    assert t[|x|..] == y + z && t[..|x|] == x && t[|x| + |y|..] == z;
  }

  lemma PathLengthIs(s: seq<string>)
    requires s != [] && AreLines(s)
    ensures PathLength(Join(s)) == |s[0]| + 1 + |Join(Skipped(s[1..], "["))|
  {
    assert s[0] in s;
    FindLine(s[0], s[1..], "[");
    assert "\n" + "[" == "\n[";
    Assoc(s[0], "\n", Join(s[1..]));
    if Seek(s[1..], "[") == [] { JoinSplits(s[1..], "["); }
  }

  /** Cutting a path out of the text cuts its section out of the lines, and nothing else. */
  lemma RemovePathLines(lines: seq<string>, name: string)
    requires AreLines(lines) && '\n' !in name
    ensures RemovePath(Join(lines), name) == Join(WithoutSection(lines, Header(name)))
  {
    hide Seek, Skipped, Join, Locate, PathLength;
    var a, s := Skipped(lines, Header(name)), Seek(lines, Header(name));
    LocateLine(lines, name);
    SeekSplits(lines, Header(name));
    JoinAppend(a, s);
    if s != [] {
      assert AreLines(s);
      SectionParts(a, s);
    }
  }

  lemma SectionParts(a: seq<string>, s: seq<string>)
    requires s != [] && AreLines(s)
    ensures CutPath(Join(a) + Join(s), Some(|Join(a)|)) == Join(a + Seek(s[1..], "["))
  {
    hide Seek, Skipped, PathLength, CutPath;
    var b, e := Join(Skipped(s[1..], "[")), Join(Seek(s[1..], "["));
    JoinSplits(s[1..], "[");
    Assoc(s[0] + "\n", b, e);
    PathLengthIs(s);
    CutMiddle(Join(a), s[0] + "\n" + b, e);
    JoinAppend(a, Seek(s[1..], "["));
  }

  // ----- the option ------------------------------------------------------------------------------------------

  lemma {:induction false} SkippedLengths(lines: seq<string>, q: string)
    ensures |Seek(lines, q)| + |Skipped(lines, q)| == |lines| && |Join(Skipped(lines, q))| <= |Join(lines)|
  {
    if lines != [] && !(q <= lines[0]) {
      SkippedLengths(lines[1..], q);
      JoinCons(lines[0], Skipped(lines[1..], q));
    }
  }

  /** An option line before the next header leaves room for at least its name. */
  lemma {:induction false} OptionOrder(lines: seq<string>, option: string)
    requires option != ""
    ensures var c, b := Skipped(lines, option), Skipped(lines, "[");
            if |Seek(lines, option)| > |Seek(lines, "[")| then |Join(c)| + 1 < |Join(b)| else |Join(c)| >= |Join(b)|
  {
    if lines != [] {
      SkippedLengths(lines, option);
      SkippedLengths(lines, "[");
      OptionOrder(lines[1..], option);
      JoinCons(lines[0], Skipped(lines[1..], option));
      JoinCons(lines[0], Skipped(lines[1..], "["));
    }
  }

  lemma FindPlace(s: seq<string>, q: string)
    requires s != [] && AreLines(s) && '\n' !in q && q != ""
    ensures Find(Join(s), "\n" + q) == Place(s[0], s[1..], q)
  {
    hide Find, Seek, Skipped;
    assert s[0] in s;
    FindLine(s[0], s[1..], q);
    Assoc(s[0], "\n", Join(s[1..]));
  }

  /** The option is found at the newline before the first line that starts with it, if that is before the next header. */
  lemma OptionPlace(s: seq<string>, option: string)
    requires s != [] && AreLines(s) && '\n' !in option && option != ""
    ensures FindOption(Join(s), option) == PlaceOf(s[0], s[1..], option)
  {
    hide Find, Seek, Skipped;
    FindPlace(s, option);
    assert Find(Join(s), "\n[") == Place(s[0], s[1..], "[") by {
      FindPlace(s, "[");
      assert "\n" + "[" == "\n[";
    }
    PlaceInBounds(s[0], s[1..], option);
  }

  function Place(l: string, rest: seq<string>, q: string): Option<nat> {
    if Seek(rest, q) == [] then None else Some(|l| + |Join(Skipped(rest, q))|)
  }

  function PlaceOf(l: string, rest: seq<string>, option: string): Option<nat> {
    if |Seek(rest, option)| > |Seek(rest, "[")| then Some(|l| + |Join(Skipped(rest, option))|) else None
  }

  /** On lengths: `o` and `b` are those of the lines before the option and before the next header. */
  lemma BoundsAgree(n: nat, o: nat, b: nat, behindO: nat, behindB: nat, later: bool)
    requires o + behindO == b + behindB && (if later then o + 1 < b else o >= b)
    ensures (if later then Some(n + o) else None) ==
            Bounded(if behindO == 0 then None else Some(n + o), SearchLength(n + 1 + o + behindO, if behindB == 0 then None else Some(n + b)))
  {
  }

  lemma PlaceInBounds(l: string, rest: seq<string>, option: string)
    requires option != ""
    ensures PlaceOf(l, rest, option) == Bounded(Place(l, rest, option), SearchLength(|l| + 1 + |Join(rest)|, Place(l, rest, "[")))
  {
    hide Seek, Skipped, Join, Bounded, SearchLength;
    OptionOrder(rest, option);
    JoinLengths(rest, option);
    JoinLengths(rest, "[");
    BoundsAgree(|l|, |Join(Skipped(rest, option))|, |Join(Skipped(rest, "["))|, |Join(Seek(rest, option))|, |Join(Seek(rest, "["))|,
        |Seek(rest, option)| > |Seek(rest, "[")|);
  }

  lemma JoinLengths(lines: seq<string>, q: string)
    ensures |Join(lines)| == |Join(Skipped(lines, q))| + |Join(Seek(lines, q))|
    ensures Seek(lines, q) == [] <==> |Join(Seek(lines, q))| == 0
  {
    hide Seek, Skipped;
    JoinSplits(lines, q);
    JoinNotEmpty(Seek(lines, q));
  }

  lemma {:induction false} LineLengthIs(l: string, z: string)
    requires '\n' !in l
    ensures LineLength(l + ("\n" + z)) == |l|
  {
    if l != "" {
      var s := l + ("\n" + z);
      assert s[0] == l[0] && s[1..] == l[1..] + ("\n" + z);
      LineLengthIs(l[1..], z);
    }
  }

  lemma WithoutLine(w: string, l: string, z: string)
    requires w != "" && w[|w| - 1] == '\n'
    ensures var t := w + (l + ("\n" + z)); t[|w|..] == l + ("\n" + z) && Without(t, |w| - 1, 1 + |l|) == w + z
  {
    var t := w + (l + ("\n" + z));
    assert t[|w| + |l|..] == "\n" + z;
    assert t[..|w| - 1] + "\n" == w;
  }

  /** The cut takes the line `l` out: from the newline before it to its own. */
  lemma CutLine(t: string, w: string, l: string, z: string)
    requires w != "" && w[|w| - 1] == '\n' && '\n' !in l && t == w + (l + ("\n" + z))
    ensures CutOption(t, Some(|w| - 1)) == w + z
  {
    WithoutLine(w, l, z);
    LineLengthIs(l, z);
  }

  /** The text up to the line that starts with the option. */
  function HeadText(x: string, l: string, rest: seq<string>, option: string): string {
    x + (l + "\n" + Join(Skipped(rest, option)))
  }

  lemma {:induction false} HeadEnds(l: string, c: seq<string>)
    ensures var w := l + "\n" + Join(c); w[|w| - 1] == '\n'
    decreases |c|
  {
    if c != [] { HeadEnds(c[0], c[1..]); }
  }

  lemma TextBefore(x: string, l: string, rest: seq<string>, option: string)
    requires Seek(rest, option) != []
    ensures var o := Seek(rest, option);
            x + (l + "\n" + Join(rest)) == HeadText(x, l, rest, option) + (o[0] + ("\n" + Join(o[1..])))
  {
    hide Seek, Skipped;
    var o, c := Seek(rest, option), Join(Skipped(rest, option));
    JoinSplits(rest, option);
    Assoc(o[0], "\n", Join(o[1..]));
    Assoc(l + "\n", c, Join(o));
    Assoc(x, l + "\n" + c, Join(o));
  }

  lemma TextAfter(x: string, l: string, rest: seq<string>, option: string)
    requires |Seek(rest, option)| > |Seek(rest, "[")|
    ensures x + (l + "\n" + Join(WithoutOption(rest, option))) == HeadText(x, l, rest, option) + Join(Seek(rest, option)[1..])
  {
    hide Seek, Skipped, Join;
    var z, c := Seek(rest, option)[1..], Skipped(rest, option);
    JoinAppend(c, z);
    Assoc(l + "\n", Join(c), Join(z));
    Assoc(x, l + "\n" + Join(c), Join(z));
  }

  /** Behind `x`, a header and its lines: the cut at the option leaves the lines without it. */
  lemma OptionParts(x: string, s: seq<string>, option: string)
    requires s != [] && AreLines(s) && |Seek(s[1..], option)| > |Seek(s[1..], "[")|
    ensures var k := |x| + |s[0]| + |Join(Skipped(s[1..], option))|;
            && k < |x + Join(s)|
            && CutOption(x + Join(s), Some(k)) == x + Join([s[0]] + WithoutOption(s[1..], option))
  {
    hide CutOption, Seek, Skipped;
    var l, rest, o := s[0], s[1..], Seek(s[1..], option);
    TextBefore(x, l, rest, option);
    TextAfter(x, l, rest, option);
    HeadEnds(l, Skipped(rest, option));
    SeekIn(rest, option);
    CutLine(x + Join(s), HeadText(x, l, rest, option), o[0], Join(o[1..]));
    JoinCons(l, WithoutOption(rest, option));
  }

  lemma SeekIn(rest: seq<string>, option: string)
    requires AreLines(rest) && Seek(rest, option) != []
    ensures '\n' !in Seek(rest, option)[0]
  {
    SeekSplits(rest, option);
    assert Seek(rest, option)[0] in rest;
  }

  lemma CutAtPlace(x: string, s: seq<string>, option: string)
    requires s != [] && AreLines(s)
    ensures var place := Later(PlaceOf(s[0], s[1..], option), |x|);
            && (place.Some? ==> place.value < |x + Join(s)|)
            && CutOption(x + Join(s), place) == x + Join([s[0]] + WithoutOption(s[1..], option))
  {
    hide Join, Skipped, Seek, CutOption, AreLines;
    if |Seek(s[1..], option)| > |Seek(s[1..], "[")| {
      OptionParts(x, s, option);
    } else {
      CutNowhere(x, s);
    }
  }

  lemma CutNowhere(x: string, s: seq<string>)
    requires s != []
    ensures CutOption(x + Join(s), None) == x + Join([s[0]] + s[1..])
  {
    assert s == [s[0]] + s[1..];
  }

  lemma RemoveOptionBehind(x: string, s: string, name: string, option: string, place: Option<nat>)
    requires Locate(x + s, name) == Some(|x|) && FindOption(s, option) == place
    ensures (place.Some? ==> place.value < |s|) && RemoveOption(x + s, name, option) == CutOption(x + s, Later(place, |x|))
  {
    assert (x + s)[|x|..] == s;
  }

  /** Removing an option from the text removes the first line of that section that starts with it, and nothing else. */
  lemma RemoveOptionLines(lines: seq<string>, name: string, option: string)
    requires AreLines(lines) && '\n' !in name && '\n' !in option && option != ""
    ensures RemoveOption(Join(lines), name, option) == Join(WithoutOptionOf(lines, Header(name), option))
  {
    hide Seek, Skipped, Join, Locate, FindOption, CutOption, WithoutOption;
    var a, s := Skipped(lines, Header(name)), Seek(lines, Header(name));
    LocateLine(lines, name);
    SeekSplits(lines, Header(name));
    JoinAppend(a, s);
    if s != [] {
      assert AreLines(s);
      OptionPlace(s, option);
      RemoveOptionBehind(Join(a), Join(s), name, option, PlaceOf(s[0], s[1..], option));
      CutAtPlace(Join(a), s, option);
      JoinAppend(a, [s[0]] + WithoutOption(s[1..], option));
    }
  }
}
