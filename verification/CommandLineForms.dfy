/**
 What command_line.cc takes for a switch, for whitespace and for the same name, and what it writes,
 stated in characters, with the answers that command_line_unittest.cc asks for.
 */
module CommandLineForms {
  import opened ArgvQuoting
  import opened CommandLines
  import opened QuotingAnswers
  import opened Sequences
  import opened Strings

  // ---------------------------------------------------------------- characters

  const WHITESPACE_ASCII: seq<int> := [0x09, 0x0A, 0x0B, 0x0C, 0x0D, 0x20]

  const WHITESPACE_UNICODE: seq<int> := WHITESPACE_ASCII
    + [0x85, 0xA0, 0x1680, 0x2000, 0x2001, 0x2002, 0x2003, 0x2004, 0x2005, 0x2006, 0x2007, 0x2008, 0x2009, 0x200A]
    + [0x2028, 0x2029, 0x202F, 0x205F, 0x3000]

  /** What is trimmed is just what the tables of string_util_constants.cc list. */
  lemma SpacesAre(os: Platform, c: char)
    ensures IsSpace(os, c) <==> (c as int) in (if os.Windows? then WHITESPACE_UNICODE else WHITESPACE_ASCII)
  {
  }

  /** On Windows the capital ASCII letters of a name become small ones; nothing else changes anywhere. */
  lemma LowerIs(os: Platform, s: string, i: nat)
    requires i < |s|
    ensures |Lower(os, s)| == |s|
    ensures Lower(os, s)[i] as int
         == if os.Windows? && 0x41 <= s[i] as int <= 0x5A then s[i] as int + 0x20 else s[i] as int
  {
  }

  /** The same letter, small or capital. */
  predicate CaseOf(c: char, d: char)
  {
    || c == d
    || (0x41 <= c as int <= 0x5A && d as int == c as int + 0x20)
    || (0x41 <= d as int <= 0x5A && c as int == d as int + 0x20)
  }

  predicate SameButCase(a: string, b: string)
  {
    |a| == |b| && forall i :: 0 <= i < |a| ==> CaseOf(a[i], b[i])
  }

  lemma SameLower(a: string, b: string, slash: bool)
    requires SameButCase(a, b)
    ensures Lower(Windows(slash), a) == Lower(Windows(slash), b)
  {
    forall i | 0 <= i < |a|
      ensures Lower(Windows(slash), a)[i] == Lower(Windows(slash), b)[i]
    {
      assert CaseOf(a[i], b[i]);
    }
  }

  /** On Windows names that differ only in case are stored alike, and the later value replaces the earlier. */
  lemma CaseIsOneKey(slash: bool, p: Parsed, a: string, b: string, v: string, w: string)
    requires WellFormed(p) && SameButCase(a, b)
    ensures var os := Windows(slash);
            && Key(os, a) == Key(os, b) && Combined(os, a, v) == Combined(os, b, v)
            && Grown(os, Grown(os, p, [Switch(a, v)]), [Switch(b, w)]).switches == p.switches[Key(os, a) := w]
  {
    var os := Windows(slash);
    SameLower(a, b, slash);
    FiledOne(os, a, v, p.switches);
    FiledOne(os, b, w, p.switches[Key(os, a) := v]);
    hide Lower, Combined, Key;
    assert p.switches[Key(os, a) := v][Key(os, b) := w] == p.switches[Key(os, a) := w];
  }

  lemma FiledOne(os: Platform, name: string, value: string, m: map<string, string>)
    ensures Filed(os, [Switch(name, value)], m) == m[Key(os, name) := value]
  {
    hide Key;
    assert [Switch(name, value)][1..] == [];
  }

  /** Elsewhere a name that differs at all is another key, if neither has a prefix. */
  lemma OtherNameIsOtherKey(a: string, b: string)
    requires a != b && (a == "" || a[0] != '-') && (b == "" || b[0] != '-')
    ensures Key(Posix, a) != Key(Posix, b)
  {
    assert a[0..] == a && b[0..] == b;
  }

  // ---------------------------------------------------------------- switches

  /** What starts a switch. */
  predicate Marked(os: Platform, s: string)
  {
    s != "" && (s[0] == '-' || (s[0] == '/' && os == Windows(true)))
  }

  /** An element is a switch if it starts like one and is more than a prefix. */
  lemma SwitchIs(os: Platform, s: string)
    ensures IsSwitch(os, s) <==> Marked(os, s) && |s| >= 2 && s != "--"
  {
    if |s| == 2 {
      assert s == [s[0], s[1]];
    }
  }

  lemma LowerConcat(os: Platform, a: string, b: string)
    ensures Lower(os, a + b) == Lower(os, a) + Lower(os, b)
  {
    hide LowerChar;
  }

  predicate IsPrefix(os: Platform, prefix: string)
  {
    prefix == "-" || prefix == "--" || (prefix == "/" && os == Windows(true))
  }

  lemma PrefixStays(os: Platform, prefix: string, rest: string)
    requires IsPrefix(os, prefix) && (prefix == "-" ==> rest == "" || rest[0] != '-')
    ensures Lower(os, prefix) == prefix && PrefixLength(os, prefix + rest) == |prefix|
  {
  }

  lemma NoPrefix(os: Platform, name: string)
    requires !Marked(os, name)
    ensures PrefixLength(os, Lower(os, name)) == 0
  {
  }

  /** The key is what is behind the prefix; a name without one is stored with "--". */
  lemma KeyIs(os: Platform, prefix: string, name: string)
    requires IsPrefix(os, prefix) && (prefix == "-" ==> name == "" || name[0] != '-')
    ensures Key(os, prefix + name) == Lower(os, name) && Combined(os, prefix + name, "") == prefix + Lower(os, name)
    ensures !Marked(os, name) ==> Key(os, name) == Lower(os, name) && Combined(os, name, "") == "--" + Lower(os, name)
  {
    LowerConcat(os, prefix, name);
    PrefixStays(os, prefix, Lower(os, name));
    if !Marked(os, name) {
      NoPrefix(os, name);
    }
    hide Lower, PrefixLength, IsPrefix, Marked;
    ConcatEmpty(prefix + Lower(os, name));
    ConcatEmpty("--" + Lower(os, name));
  }

  /** A value is appended behind a '=', nothing if it is empty. */
  lemma ValueIsAppended(os: Platform, name: string, value: string)
    ensures Combined(os, name, value) == Combined(os, name, "") + (if value == "" then "" else "=" + value)
  {
    hide Lower, PrefixLength;
  }

  /** An element with a '=' is split at the first one. */
  lemma SwitchSplit(name: string, value: string)
    requires '=' !in name
    ensures NameOf(name + "=" + value) == name && ValueOf(name + "=" + value) == value
    ensures NameOf(name) == name && ValueOf(name) == ""
  {
    var s := name + "=" + value;
    forall i | 0 <= i < |name|
      ensures s[i] != '='
    {
      assert s[i] == name[i] && name[i] in name;
    }
    EqualsFound(s, |name|);
    EqualsFound(name, |name|);
    assert s[..|name|] == name && s[|name| + 1..] == value;
  }

  // ---------------------------------------------------------------- what the tests ask for

  /** Printed ASCII at both ends is not trimmed. */
  lemma NothingToTrim(os: Platform, s: string)
    requires s != "" && 0x20 < s[0] as int < 0x7F && 0x20 < s[|s| - 1] as int < 0x7F
    ensures Trim(os, s) == s
  {
    TrimTrims(os, s);
  }

  /** A name of small letters, digits and the like is stored as it is. */
  lemma SmallIsKept(os: Platform, s: string)
    requires forall i :: 0 <= i < |s| ==> !(0x41 <= s[i] as int <= 0x5A)
    ensures Lower(os, s) == s
  {
  }

  lemma OneItem(os: Platform, elem: string, rest: seq<string>, parsing: bool)
    requires Trim(os, elem) == elem
    ensures var still := parsing && elem != "--";
            Items(os, [elem] + rest, parsing) == [ItemOf(os, elem, still)] + Items(os, rest, still)
  {
    hide Trim, ItemOf;
    assert ([elem] + rest)[1..] == rest;
  }

  /** The program is trimmed, and empty if there is none. */
  lemma ProgramIsTrimmed(os: Platform)
    ensures Initial(os, [" p\t"]) == Parsed(["p"], map[], 1) && Initial(os, []) == Parsed([""], map[], 1)
  {
    assert TrimLeft(os, " p\t") == "p\t" by {
      assert " p\t"[1..] == "p\t";
    }
    assert TrimRight(os, "p\t") == "p" by {
      assert "p\t"[..1] == "p";
    }
    hide TrimLeft, TrimRight, IsSpace;
    assert [" p\t"][1..] == [];
  }

  lemma NoItems(os: Platform, m: map<string, string>)
    ensures SwitchElems(os, []) == [] && ArgElems([]) == [] && Filed(os, [], m) == m
  {
  }

  lemma ArgFirst(os: Platform, x: string, rest: seq<Item>, m: map<string, string>)
    ensures var items := [Arg(x)] + rest;
            && SwitchElems(os, items) == SwitchElems(os, rest) && ArgElems(items) == [x] + ArgElems(rest)
            && Filed(os, items, m) == Filed(os, rest, m)
  {
    hide Combined, Key;
    assert ([Arg(x)] + rest)[1..] == rest;
  }

  lemma SwitchFirst(os: Platform, name: string, value: string, rest: seq<Item>, m: map<string, string>)
    ensures var items := [Switch(name, value)] + rest;
            && SwitchElems(os, items) == [Combined(os, name, value)] + SwitchElems(os, rest)
            && ArgElems(items) == ArgElems(rest) && Filed(os, items, m) == Filed(os, rest, m[Key(os, name) := value])
  {
    hide Combined, Key;
    assert ([Switch(name, value)] + rest)[1..] == rest;
  }

  /** The program, a terminator and what looks like a switch behind it, as AppendSwitchesDashDash reads them. */
  lemma DashDashIsRead(os: Platform)
    ensures Initial(os, ["prog", "--", "--arg1"]) == Parsed(["prog", "--", "--arg1"], map[], 1)
  {
    NothingToTrim(os, "prog");
    DashDashItems(os);
    TwoArgsRead(os, "prog", "--", "--arg1");
    hide *;
  }

  lemma TwoArgsRead(os: Platform, p: string, x: string, y: string)
    requires Trim(os, p) == p && Items(os, [x] + [y], true) == [Arg(x)] + ([Arg(y)] + [])
    ensures Initial(os, [p, x, y]) == Parsed([p, x, y], map[], 1)
  {
    TwoArgs(os, x, y);
    hide Trim, Items, SwitchElems, ArgElems, Filed;
    assert [p, x, y][1..] == [x] + [y];
  }

  lemma DashDashItems(os: Platform)
    ensures Items(os, ["--"] + ["--arg1"], true) == [Arg("--")] + ([Arg("--arg1")] + [])
  {
    NothingToTrim(os, "--");
    NothingToTrim(os, "--arg1");
    OneItem(os, "--arg1", [], false);
    OneItem(os, "--", ["--arg1"], true);
    hide Trim;
    assert Items(os, [], false) == [] && ["--arg1"] + [] == ["--arg1"];
    hide Items;
  }

  lemma TwoArgs(os: Platform, x: string, y: string)
    ensures var items := [Arg(x)] + ([Arg(y)] + []);
            SwitchElems(os, items) == [] && ArgElems(items) == [x, y] && Filed(os, items, map[]) == map[]
  {
    hide SwitchElems, ArgElems, Filed;
    NoItems(os, map[]);
    ArgFirst(os, y, [], map[]);
    ArgFirst(os, x, [Arg(y)] + [], map[]);
  }

  lemma SwitchStored(os: Platform, name: string, value: string)
    requires name != "" && !Marked(os, name) && (forall i :: 0 <= i < |name| ==> !(0x41 <= name[i] as int <= 0x5A))
    ensures Key(os, name) == name && Combined(os, name, value) == "--" + name + (if value == "" then "" else "=" + value)
  {
    SmallIsKept(os, name);
    NoPrefix(os, name);
  }

  /** Two switches and an argument appended to it. */
  lemma DashDashIsAppended(os: Platform)
    ensures var p := Initial(os, ["prog", "--", "--arg1"]);
            Grown(os, p, [Switch("switch1", ""), Switch("switch2", "foo"), Arg("--arg2")])
              == Parsed(["prog", "--switch1", "--switch2=foo", "--", "--arg1", "--arg2"],
                        map["switch1" := "", "switch2" := "foo"], 3)
  {
    DashDashIsRead(os);
    FirstSwitch(os);
    SecondSwitch(os);
    TwoAndOneGrown(os, "prog", "--", "--arg1", "switch1", "", "switch2", "foo", "--arg2");
    hide *;
  }

  lemma FirstSwitch(os: Platform)
    ensures Key(os, "switch1") == "switch1" && Combined(os, "switch1", "") == "--switch1"
  {
    SwitchStored(os, "switch1", "");
    hide Key, Combined;
  }

  lemma SecondSwitch(os: Platform)
    ensures Key(os, "switch2") == "switch2" && Combined(os, "switch2", "foo") == "--switch2=foo"
  {
    SwitchStored(os, "switch2", "foo");
    hide Key, Combined;
  }

  lemma TwoAndOneGrown(os: Platform, p0: string, p1: string, p2: string,
                       a: string, v: string, b: string, w: string, x: string)
    ensures Grown(os, Parsed([p0, p1, p2], map[], 1), [Switch(a, v), Switch(b, w), Arg(x)])
         == Parsed([p0, Combined(os, a, v), Combined(os, b, w), p1, p2, x], map[Key(os, a) := v, Key(os, b) := w], 3)
  {
    TwoAndOne(os, a, v, b, w, x);
    hide Key, Combined, SwitchElems, ArgElems, Filed;
    assert [p0, p1, p2][..1] == [p0] && [p0, p1, p2][1..] == [p1, p2];
  }

  lemma TwoAndOne(os: Platform, a: string, v: string, b: string, w: string, x: string)
    ensures var items := [Switch(a, v), Switch(b, w), Arg(x)];
            && SwitchElems(os, items) == [Combined(os, a, v), Combined(os, b, w)] && ArgElems(items) == [x]
            && Filed(os, items, map[]) == map[Key(os, a) := v, Key(os, b) := w]
  {
    hide Key, Combined, SwitchElems, ArgElems, Filed;
    var m: map<string, string> := map[Key(os, a) := v];
    NoItems(os, m[Key(os, b) := w]);
    var last := [Arg(x)] + [];
    ArgFirst(os, x, [], m[Key(os, b) := w]);
    var second := [Switch(b, w)] + last;
    SwitchFirst(os, b, w, last, m);
    SwitchFirst(os, a, v, second, map[]);
    assert [Switch(a, v)] + second == [Switch(a, v), Switch(b, w), Arg(x)];
  }

  /** A switch of CommandLineFromString: capitals in its name, a slash in front, and a value. */
  lemma SlashSwitchIsRead()
    ensures ItemOf(Windows(true), "/" + "Spaetzel" + "=" + "pierogi", true) == Switch("/" + "Spaetzel", "pierogi")
    ensures Key(Windows(true), "/" + "Spaetzel") == "spaetzel"
    ensures ItemOf(Posix, "/" + "Spaetzel" + "=" + "pierogi", true).Arg?
  {
    var elem := "/" + "Spaetzel" + "=" + "pierogi";
    SwitchIs(Windows(true), elem);
    SwitchIs(Posix, elem);
    SwitchSplit("/" + "Spaetzel", "pierogi");
    KeyIs(Windows(true), "/", "Spaetzel");
    SpaetzelIsLower();
    hide IsSwitch, NameOf, ValueOf, Key, Lower;
  }

  lemma SpaetzelIsLower()
    ensures Lower(Windows(true), "Spaetzel") == "spaetzel"
  {
    LowerConcat(Windows(true), "S", "paetzel");
    SmallIsKept(Windows(true), "paetzel");
    LowerIs(Windows(true), "S", 0);
    hide Lower;
    assert "S" + "paetzel" == "Spaetzel" && "s" + "paetzel" == "spaetzel";
  }

  // ---------------------------------------------------------------- the arguments string of the tests

  /** Elsewhere than on Windows an element is written as it is, a switch without a '=' that ends it. */
  lemma PosixText(elem: string, parsing: bool, placeholders: bool)
    ensures Text(Posix, elem, parsing, placeholders)
         == if parsing && IsSwitch(Posix, elem) && FindEquals(elem) + 1 == |elem| then elem[..|elem| - 1] else elem
  {
    hide IsSwitch, FindEquals, NameOf, ValueOf;
    Halves(elem);
    ConcatEmpty(NameOf(elem));
  }

  lemma Halves(elem: string)
    ensures NameOf(elem) == elem[..FindEquals(elem)] && (ValueOf(elem) == "" <==> FindEquals(elem) + 1 >= |elem|)
    ensures ValueOf(elem) != "" ==> elem == NameOf(elem) + ("=" + ValueOf(elem))
  {
    hide FindEquals;
    var n := FindEquals(elem);
    if n < |elem| {
      var rest := elem[n + 1..];
      assert ValueOf(elem) == rest && NameOf(elem) == elem[..n];
      CutAt(elem, n);
    }
  }

  lemma CutAt(s: string, n: nat)
    requires n < |s| && s[n] == '='
    ensures s == s[..n] + ("=" + s[n + 1..])
  {
  }

  /** On Windows the value is quoted, not the name. */
  lemma SwitchText(os: Platform, name: string, value: string, placeholders: bool)
    requires IsSwitch(os, name + "=" + value) && '=' !in name && value != ""
    ensures Text(os, name + "=" + value, true, placeholders) == name + ("=" + Written(os, value, placeholders))
  {
    SwitchSplit(name, value);
    hide IsSwitch, NameOf, ValueOf, Written;
  }

  const SPACED_PATH := "C:\\Some File\\With Spaces.ggg"

  const PLAIN_PATH := "C:\\no\\spaces.ggg"

  lemma KeptInQuotes(arg: string, placeholders: bool, i: nat)
    requires i < |arg| && NeedsCare(arg[i], placeholders)
    requires (forall k :: 0 <= k < |arg| ==> arg[k] as int != 0x22) && arg[|arg| - 1] as int != 0x5C
    ensures Quote(arg, placeholders) == "\"" + arg + "\""
  {
    hide QuoteBody, Quote;
    assert arg[i] in arg;
    QuotesAround(arg, placeholders);
    BodyKept(arg);
  }

  lemma PathsAreQuoted()
    ensures Quote(SPACED_PATH, false) == "\"" + SPACED_PATH + "\""
    ensures Quote(PLAIN_PATH, false) == "\"" + PLAIN_PATH + "\""
  {
    hide Quote;
    KeptInQuotes(SPACED_PATH, false, 2);
    KeptInQuotes(PLAIN_PATH, false, 2);
  }

  lemma ArgumentsAreQuoted()
    ensures Quote("arg with space", false) == "\"" + "arg with space" + "\"" && Quote("nospace", false) == "nospace"
    ensures Quote("%1", false) == "%1" && Quote("%1", true) == "\"" + "%1" + "\""
  {
    hide Quote;
    KeptInQuotes("arg with space", false, 3);
    StaysExactly("nospace", false);
    StaysExactly("%1", false);
    KeptInQuotes("%1", true, 0);
  }

  /** How GetArgumentsString of the tests expects a switch to be written. */
  lemma PathSwitchIsWritten(slash: bool)
    ensures Text(Windows(slash), "--first-arg" + "=" + SPACED_PATH, true, false)
         == "--first-arg" + ("=" + ("\"" + SPACED_PATH + "\""))
    ensures Text(Posix, "--first-arg" + "=" + SPACED_PATH, true, false) == "--first-arg" + "=" + SPACED_PATH
  {
    var elem := "--first-arg" + "=" + SPACED_PATH;
    SwitchIs(Windows(slash), elem);
    SwitchText(Windows(slash), "--first-arg", SPACED_PATH, false);
    PathsAreQuoted();
    PosixText(elem, true, false);
    hide Quote, IsSwitch, Text;
    EqualsFirst("--first-arg", SPACED_PATH);
  }

  lemma EqualsFirst(name: string, value: string)
    requires '=' !in name
    ensures FindEquals(name + "=" + value) == |name|
  {
    var s := name + "=" + value;
    forall i | 0 <= i < |name|
      ensures s[i] != '='
    {
      assert s[i] == name[i] && name[i] in name;
    }
    EqualsFound(s, |name|);
  }
}
