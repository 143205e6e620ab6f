/**
 command_line.cc: the vector argv that keeps the program, then the switches, then the arguments,
 with an index at the boundary and a map of the switches.
 */
module CommandLines {
  import opened ArgvQuoting
  import opened Sequences
  import opened Strings

  /** What the build target fixes; on Windows a program may ask that '/' start no switch. */
  datatype Platform = Posix | Windows(slashIsSwitch: bool)

  const TERMINATOR := "--"

  function Prefixes(os: Platform): (prefixes: seq<string>)
  {
    if os.Windows? && os.slashIsSwitch then ["--", "-", "/"] else ["--", "-"]
  }

  /** Characters that TrimWhitespace removes: the ASCII ones, on Windows those of Unicode. */
  predicate IsSpace(os: Platform, c: char)
  {
    || '\U{9}' <= c <= '\U{D}' || c == ' '
    || (os.Windows? && (c in "\U{85}\U{A0}\U{1680}\U{2028}\U{2029}\U{202F}\U{205F}\U{3000}"
                        || '\U{2000}' <= c <= '\U{200A}'))
  }

  function TrimLeft(os: Platform, s: string): (t: string)
    ensures |t| <= |s| && (t != "" ==> !IsSpace(os, t[0]))
    ensures forall c :: c in t ==> c in s
  {
    if s != "" && IsSpace(os, s[0]) then TrimLeft(os, s[1..]) else s
  }

  function TrimRight(os: Platform, s: string): (t: string)
    ensures t <= s && (t != "" ==> !IsSpace(os, t[|t| - 1]))
  {
    if s != "" && IsSpace(os, s[|s| - 1]) then TrimRight(os, s[..|s| - 1]) else s
  }

  function Trim(os: Platform, s: string): (t: string)
  {
    TrimRight(os, TrimLeft(os, s))
  }

  predicate Trimmed(os: Platform, s: string)
  {
    s == "" || (!IsSpace(os, s[0]) && !IsSpace(os, s[|s| - 1]))
  }

  lemma TrimTrims(os: Platform, s: string)
    ensures Trimmed(os, Trim(os, s)) && |Trim(os, s)| <= |s|
    ensures Trimmed(os, s) ==> Trim(os, s) == s
    ensures forall c :: c in Trim(os, s) ==> c in s
  {
  }

  /** Trim takes away whitespace at the ends, and all of it. */
  lemma TrimExactly(os: Platform, s: string) returns (i: nat, j: nat)
    ensures i <= j <= |s| && Trim(os, s) == s[i..j] && Trimmed(os, s[i..j])
    ensures forall k :: 0 <= k < i || j <= k < |s| ==> IsSpace(os, s[k])
  {
    i := TrimLeftExactly(os, s);
    var n := TrimRightExactly(os, s[i..]);
    j := i + n;
    assert s[i..][..n] == s[i..j];
    assert forall k :: j <= k < |s| ==> s[k] == s[i..][k - i];
    TrimTrims(os, s);
  }

  lemma {:induction false} TrimLeftExactly(os: Platform, s: string) returns (i: nat)
    ensures i <= |s| && TrimLeft(os, s) == s[i..] && forall k :: 0 <= k < i ==> IsSpace(os, s[k])
  {
    if s != "" && IsSpace(os, s[0]) {
      i := TrimLeftExactly(os, s[1..]);
      assert forall k :: 0 < k <= i ==> s[k] == s[1..][k - 1];
      i := i + 1;
    } else {
      i := 0;
    }
  }

  lemma {:induction false} TrimRightExactly(os: Platform, s: string) returns (n: nat)
    ensures n <= |s| && TrimRight(os, s) == s[..n] && forall k :: n <= k < |s| ==> IsSpace(os, s[k])
  {
    if s != "" && IsSpace(os, s[|s| - 1]) {
      var front := s[..|s| - 1];
      n := TrimRightExactly(os, front);
      assert s[..n] == front[..n];
      assert forall k :: n <= k < |s| - 1 ==> s[k] == front[k];
    } else {
      n := |s|;
      assert s[..n] == s;
    }
  }

  function LowerChar(c: char): (l: char)
    ensures c == '=' || c == '-' || c == '/' ==> l == c
    ensures l == '=' ==> c == '='
    ensures l == '-' ==> c == '-'
    ensures l == '/' ==> c == '/'
  {
    if 'A' <= c <= 'Z' then (c as int + 32) as char else c
  }

  /** LowerASCIIOnWindows */
  function Lower(os: Platform, s: string): (l: string)
    ensures |l| == |s|
    ensures forall i :: 0 <= i < |s| ==> l[i] == if os.Windows? then LowerChar(s[i]) else s[i]
  {
    if os.Windows? then seq(|s|, i requires 0 <= i < |s| => LowerChar(s[i])) else s
  }

  // ---------------------------------------------------------------- one element

  function PrefixLength(os: Platform, s: string): (n: nat)
    ensures n <= |s|
  {
    if |s| >= 2 && s[0] == '-' && s[1] == '-' then 2
    else if |s| >= 1 && (s[0] == '-' || (os == Windows(true) && s[0] == '/')) then 1
    else 0
  }

  lemma PrefixForms(s: string)
    ensures "-" <= s <==> |s| >= 1 && s[0] == '-'
    ensures "/" <= s <==> |s| >= 1 && s[0] == '/'
    ensures "--" <= s <==> |s| >= 2 && s[0] == '-' && s[1] == '-'
  {
    assert |s| >= 2 ==> s[..2] == [s[0], s[1]];
    assert "--" <= s ==> s[0] == "--"[0] && s[1] == "--"[1];
    assert |s| >= 1 ==> s[..1] == [s[0]];
    assert "-" <= s ==> s[0] == "-"[0];
    assert "/" <= s ==> s[0] == "/"[0];
  }

  method GetSwitchPrefixLength(os: Platform, s: string) returns (n: nat)
    ensures n == PrefixLength(os, s)
  {
    PrefixForms(s);
    for i := 0 to |Prefixes(os)|
      invariant forall j :: 0 <= j < i ==> !(Prefixes(os)[j] <= s)
    {
      if Prefixes(os)[i] <= s {
        assert i == 0 || !(Prefixes(os)[0] <= s);
        return |Prefixes(os)[i]|;
      }
    }
    assert !(Prefixes(os)[1] <= s) && (os == Windows(true) ==> !(Prefixes(os)[2] <= s));
    return 0;
  }

  predicate IsSwitch(os: Platform, s: string)
  {
    PrefixLength(os, s) != 0 && PrefixLength(os, s) != |s|
  }

  /** The part before the first '=', and the part after it. */
  function NameOf(s: string): string { s[..FindEquals(s)] }

  function ValueOf(s: string): string
  {
    if FindEquals(s) < |s| then s[FindEquals(s) + 1..] else ""
  }

  /** The element that AppendSwitchNative stores, and the key it files the value under. */
  function Combined(os: Platform, name: string, value: string): (elem: string)
  {
    (if PrefixLength(os, Lower(os, name)) == 0 then "--" else "") + Lower(os, name)
      + (if value == "" then "" else "=" + value)
  }

  function Key(os: Platform, name: string): (key: string)
  {
    Lower(os, name)[PrefixLength(os, Lower(os, name))..]
  }

  // ---------------------------------------------------------------- lists of elements

  /** What the loop of AppendSwitchesAndArguments makes of one element. */
  datatype Item = Switch(name: string, value: string) | Arg(text: string)

  function ItemOf(os: Platform, elem: string, parsing: bool): Item
  {
    if parsing && IsSwitch(os, elem) then Switch(NameOf(elem), ValueOf(elem)) else Arg(elem)
  }

  function Items(os: Platform, elems: seq<string>, parsing: bool): (items: seq<Item>)
  {
    if elems == [] then []
    else
      var elem := Trim(os, elems[0]);
      var still := parsing && elem != TERMINATOR;
      [ItemOf(os, elem, still)] + Items(os, elems[1..], still)
  }

  function SwitchElems(os: Platform, items: seq<Item>): (elems: seq<string>)
  {
    if items == [] then []
    else if items[0].Switch? then [Combined(os, items[0].name, items[0].value)] + SwitchElems(os, items[1..])
    else SwitchElems(os, items[1..])
  }

  function ArgElems(items: seq<Item>): (elems: seq<string>)
  {
    if items == [] then []
    else if items[0].Arg? then [items[0].text] + ArgElems(items[1..])
    else ArgElems(items[1..])
  }

  function Filed(os: Platform, items: seq<Item>, m: map<string, string>): (switches: map<string, string>)
    decreases |items|
  {
    if items == [] then m
    else if items[0].Switch? then Filed(os, items[1..], m[Key(os, items[0].name) := items[0].value])
    else Filed(os, items[1..], m)
  }

  /** What the map answers for a key: the value of the last switch that has it. */
  lemma {:induction false} FiledLastWins(os: Platform, items: seq<Item>, m: map<string, string>, i: nat)
    requires i < |items| && items[i].Switch?
    requires forall j :: i < j < |items| && items[j].Switch? ==> Key(os, items[j].name) != Key(os, items[i].name)
    ensures Key(os, items[i].name) in Filed(os, items, m)
         && Filed(os, items, m)[Key(os, items[i].name)] == items[i].value
    decreases |items|
  {
    hide Key;
    var next := if items[0].Switch? then m[Key(os, items[0].name) := items[0].value] else m;
    if i > 0 {
      FiledLastWins(os, items[1..], next, i - 1);
    } else {
      FiledKeeps(os, items[1..], next, Key(os, items[0].name));
    }
  }

  /** Switches with other keys leave a key alone. */
  lemma {:induction false} FiledKeeps(os: Platform, items: seq<Item>, m: map<string, string>, key: string)
    requires forall j :: 0 <= j < |items| && items[j].Switch? ==> Key(os, items[j].name) != key
    ensures key in Filed(os, items, m) <==> key in m
    ensures key in m ==> Filed(os, items, m)[key] == m[key]
    decreases |items|
  {
    hide Key;
    if items != [] {
      FiledKeeps(os, items[1..], if items[0].Switch? then m[Key(os, items[0].name) := items[0].value] else m, key);
    }
  }

  // ---------------------------------------------------------------- the object

  datatype Parsed = Parsed(argv: seq<string>, switches: map<string, string>, beginArgs: nat)

  predicate WellFormed(p: Parsed) { 1 <= p.beginArgs <= |p.argv| }

  /** p with the items added: the switches at the boundary, the arguments at the end, all in order. */
  function Grown(os: Platform, p: Parsed, items: seq<Item>): (q: Parsed)
    requires WellFormed(p)
    ensures WellFormed(q)
  {
    Parsed(p.argv[..p.beginArgs] + SwitchElems(os, items) + p.argv[p.beginArgs..] + ArgElems(items),
           Filed(os, items, p.switches),
           p.beginArgs + |SwitchElems(os, items)|)
  }

  function Initial(os: Platform, argv: seq<string>): (p: Parsed)
  {
    Grown(os, Parsed([if argv == [] then "" else Trim(os, argv[0])], map[], 1),
          Items(os, if argv == [] then [] else argv[1..], true))
  }

  lemma GrownNothing(os: Platform, p: Parsed)
    requires WellFormed(p)
    ensures Grown(os, p, []) == p
  {
    assert p.argv[..p.beginArgs] + [] + p.argv[p.beginArgs..] + [] == p.argv;
  }

  /** Adding one item and then the rest. */
  lemma GrownStep(os: Platform, p: Parsed, items: seq<Item>)
    requires WellFormed(p) && items != []
    ensures Grown(os, p, items) == Grown(os, Grown(os, p, items[..1]), items[1..])
  {
    hide Combined, Key;
    var item := items[0];
    assert items[..1] == [item] && [item][1..] == [];
    var begin, rest := p.argv[..p.beginArgs], p.argv[p.beginArgs..];
    var q := Grown(os, p, [item]);
    var st, at := SwitchElems(os, items[1..]), ArgElems(items[1..]);
    assert Filed(os, items, p.switches) == Filed(os, items[1..], Filed(os, [item], p.switches));
    if item.Switch? {
      var e := [Combined(os, item.name, item.value)];
      SwitchAdded(os, p, item.name, item.value, e[0]);
      assert q.argv[..q.beginArgs] == begin + e && q.argv[q.beginArgs..] == rest;
      assert SwitchElems(os, items) == e + st && ArgElems(items) == at;
      ConcatAssoc(begin, e, st);
    } else {
      ArgAdded(os, p, item.text);
      assert q.argv[..q.beginArgs] == begin && q.argv[q.beginArgs..] == rest + [item.text];
      assert SwitchElems(os, items) == st && ArgElems(items) == [item.text] + at;
      ConcatAssoc(begin + st, rest, [item.text]);
      ConcatAssoc(begin + st + rest, [item.text], at);
    }
  }

  class CommandLine {
    const os: Platform
    var argv: seq<string>
    var switches: map<string, string>
    var beginArgs: nat

    function State(): Parsed
      reads this
    {
      Parsed(argv, switches, beginArgs)
    }

    constructor (os: Platform)
      ensures this.os == os && State() == Parsed([""], map[], 1)
    {
      this.os := os;
      argv, switches, beginArgs := [""], map[], 1;
    }

    method AppendSwitchNative(name: string, value: string)
      requires WellFormed(State())
      modifies this
      ensures State() == Grown(os, old(State()), [Switch(name, value)])
    {
      var key := Lower(os, name);
      var combined := key;
      var prefixLength := GetSwitchPrefixLength(os, combined);
      switches := switches[key[prefixLength..] := value];
      if prefixLength == 0 {
        combined := Prefixes(os)[0] + combined;
      }
      if value != "" {
        combined := combined + ("=" + value);
      }
      SwitchAdded(os, old(State()), name, value, combined);
      argv := argv[..beginArgs] + [combined] + argv[beginArgs..];
      beginArgs := beginArgs + 1;
    }

    method AppendArgNative(value: string)
      requires WellFormed(State())
      modifies this
      ensures State() == Grown(os, old(State()), [Arg(value)])
    {
      ArgAdded(os, State(), value);
      argv := argv + [value];
    }

    method AppendSwitchesAndArguments(elems: seq<string>)
      requires WellFormed(State())
      modifies this
      ensures State() == Grown(os, old(State()), Items(os, if elems == [] then [] else elems[1..], true))
    {
      hide Grown, Combined, Key, Trim, IsSwitch, NameOf, ValueOf, WellFormed;
      var parseSwitches := true;
      var i := 1;
      GrownNothing(os, State());
      while i < |elems|
        invariant 1 <= i && (elems != [] ==> i <= |elems|)
        invariant WellFormed(State())
        invariant Grown(os, State(), Items(os, if elems == [] then [] else elems[i..], parseSwitches))
               == Grown(os, old(State()), Items(os, if elems == [] then [] else elems[1..], true))
      {
        var elem := Trim(os, elems[i]);
        ghost var items := Items(os, elems[i..], parseSwitches);
        parseSwitches := parseSwitches && elem != TERMINATOR;
        assert elems[i..][1..] == elems[i + 1..];
        GrownStep(os, State(), items);
        if parseSwitches && IsSwitch(os, elem) {
          assert items[..1] == [Switch(NameOf(elem), ValueOf(elem))];
          AppendSwitchNative(NameOf(elem), ValueOf(elem));
        } else {
          assert items[..1] == [Arg(elem)];
          AppendArgNative(elem);
        }
        i := i + 1;
      }
      GrownNothing(os, State());
    }

    /** The elements after the switches, without the first terminator among them. */
    method GetArgs() returns (args: seq<string>)
      requires WellFormed(State())
      ensures args == WithoutTerminator(argv[beginArgs..])
    {
      args := argv[beginArgs..];
      var i := 0;
      while i < |args| && args[i] != TERMINATOR
        invariant i <= |args|
        invariant WithoutTerminator(args) == args[..i] + WithoutTerminator(args[i..])
      {
        WithoutFirst(args, i);
        i := i + 1;
      }
      if i < |args| {
        assert args[i..][1..] == args[i + 1..];
        args := args[..i] + args[i + 1..];
      } else {
        assert args[..i] + [] == args && args[i..] == [];
      }
    }

    method GetArgumentsString(placeholders: bool) returns (params: string)
      requires WellFormed(State())
      ensures params == Join(Texts(os, argv[1..], true, placeholders))
    {
      hide Text, Join, IsSwitch;
      params := "";
      var parseSwitches := true;
      assert argv[1..][0..] == argv[1..];
      var i := 1;
      ghost var all := Texts(os, argv[1..], true, placeholders);
      while i < |argv|
        invariant 1 <= i <= |argv|
        invariant i == 1 ==> params == "" && parseSwitches
        invariant i > 1 ==> Join(all) == params + Appended(Texts(os, argv[i..], parseSwitches, placeholders))
      {
        var elem := argv[i];
        ghost var rest := Texts(os, argv[i..], parseSwitches, placeholders);
        parseSwitches := parseSwitches && elem != TERMINATOR;
        assert argv[i..][1..] == argv[i + 1..];
        ghost var next := Texts(os, argv[i + 1..], parseSwitches, placeholders);
        var text := WriteText(os, elem, parseSwitches, placeholders);
        assert rest == [text] + next;
        if i > 1 {
          AppendedStep(params, text, next);
          params := params + " " + text;
        } else {
          JoinStep(text, next);
          params := params + text;
        }
        i := i + 1;
      }
      assert argv[|argv|..] == [];
      JoinNothing(params);
    }

    method InitFromArgv(elems: seq<string>)
      modifies this
      ensures State() == Initial(os, elems)
    {
      argv, switches, beginArgs := [if elems == [] then "" else Trim(os, elems[0])], map[], 1;
      AppendSwitchesAndArguments(elems);
    }
  }

  lemma SwitchAdded(os: Platform, p: Parsed, name: string, value: string, elem: string)
    requires WellFormed(p) && elem == Combined(os, name, value)
    ensures Grown(os, p, [Switch(name, value)])
         == Parsed(p.argv[..p.beginArgs] + [elem] + p.argv[p.beginArgs..], p.switches[Key(os, name) := value],
                   p.beginArgs + 1)
  {
    hide Combined, Key;
    var items := [Switch(name, value)];
    assert items[1..] == [] && items[0].name == name;
    assert Filed(os, items, p.switches) == p.switches[Key(os, name) := value];
    assert SwitchElems(os, items) == [elem] && ArgElems(items) == [];
    var argv := p.argv[..p.beginArgs] + [elem] + p.argv[p.beginArgs..];
    assert argv + [] == argv;
  }

  lemma ArgAdded(os: Platform, p: Parsed, value: string)
    requires WellFormed(p)
    ensures Grown(os, p, [Arg(value)]) == Parsed(p.argv + [value], p.switches, p.beginArgs)
  {
    var items := [Arg(value)];
    assert items[1..] == [] && items[0].text == value;
    assert Filed(os, items, p.switches) == p.switches;
    assert SwitchElems(os, items) == [] && ArgElems(items) == [value];
    assert p.argv[..p.beginArgs] + [] + p.argv[p.beginArgs..] == p.argv;
  }

  // ---------------------------------------------------------------- reading an argv again

  /** The trimmed elements that are taken as switches. */
  function SwitchTokens(os: Platform, elems: seq<string>, parsing: bool): (tokens: seq<string>)
  {
    if elems == [] then []
    else
      var elem := Trim(os, elems[0]);
      var still := parsing && elem != TERMINATOR;
      (if still && IsSwitch(os, elem) then [elem] else []) + SwitchTokens(os, elems[1..], still)
  }

  /** `name=` with a name that is only a prefix or ends in whitespace. */
  predicate Dangling(os: Platform, t: string)
  {
    && FindEquals(t) + 1 == |t|
    && (PrefixLength(os, NameOf(t)) == |NameOf(t)| || (NameOf(t) != "" && IsSpace(os, t[|t| - 2])))
  }

  function Again(os: Platform, t: string): string { Combined(os, NameOf(t), ValueOf(t)) }

  /** Whether a stored switch, read again, is the same switch. */
  predicate Stable(os: Platform, e: string)
  {
    Trim(os, e) != TERMINATOR && IsSwitch(os, Trim(os, e)) && Again(os, Trim(os, e)) == e
  }

  /** What AppendSwitchNative stores for an element that was taken as a switch. */
  lemma AgainForm(os: Platform, t: string)
    requires IsSwitch(os, t)
    ensures PrefixLength(os, Lower(os, NameOf(t))) == PrefixLength(os, t) > 0
    ensures Again(os, t) == Lower(os, NameOf(t)) + (if ValueOf(t) == "" then "" else "=" + ValueOf(t))
    ensures NameOf(Again(os, t)) == Lower(os, NameOf(t)) && ValueOf(Again(os, t)) == ValueOf(t)
  {
    hide PrefixLength, IsSwitch, LowerChar;
    AgainPrefix(os, t);
    var name, value := Lower(os, NameOf(t)), ValueOf(t);
    assert "" + name == name;
    NameAndValue(name, value);
  }

  lemma AgainPrefix(os: Platform, t: string)
    requires IsSwitch(os, t)
    ensures PrefixLength(os, Lower(os, NameOf(t))) == PrefixLength(os, t) > 0
    ensures forall i :: 0 <= i < |NameOf(t)| ==> Lower(os, NameOf(t))[i] != '='
  {
    var name := NameOf(t);
    assert |t| >= 2 && t[0] != '=';
    assert FindEquals(t) > 0 && name[0] == t[0];
    forall i | 0 <= i < |name|
      ensures Lower(os, name)[i] != '='
    {
      assert name[i] == t[i] != '=';
    }
  }

  lemma NameAndValue(name: string, value: string)
    requires forall i :: 0 <= i < |name| ==> name[i] != '='
    ensures var e := name + (if value == "" then "" else "=" + value); NameOf(e) == name && ValueOf(e) == value
  {
    var e := name + (if value == "" then "" else "=" + value);
    EqualsFound(e, |name|);
    assert e[..|name|] == name;
    if value != "" {
      assert e[|name| + 1..] == value;
    }
  }

  /** e is s, character by character, with some of them lowered. */
  predicate Lowered(os: Platform, s: string, e: string)
  {
    && |e| == |s|
    && forall i :: 0 <= i < |s| ==> e[i] == s[i] || (os.Windows? && e[i] == LowerChar(s[i]))
  }

  lemma LoweredSame(os: Platform, s: string, e: string)
    requires Lowered(os, s, e)
    ensures PrefixLength(os, e) == PrefixLength(os, s) && (Trimmed(os, s) ==> Trimmed(os, e))
  {
    forall i | 0 <= i < |s|
      ensures IsSpace(os, s[i]) == IsSpace(os, e[i]) && (s[i] in "-/" ==> e[i] == s[i]) && (e[i] in "-/" ==> e[i] == s[i])
    {
      assert e[i] == s[i] || e[i] == LowerChar(s[i]);
    }
  }

  lemma AgainLowered(os: Platform, t: string)
    requires IsSwitch(os, t) && FindEquals(t) + 1 != |t|
    ensures Lowered(os, t, Again(os, t))
  {
    hide Again, PrefixLength, IsSwitch, LowerChar;
    AgainForm(os, t);
  }

  lemma AgainSame(os: Platform, t: string)
    requires IsSwitch(os, t) && Trimmed(os, t) && FindEquals(t) + 1 != |t|
    ensures Stable(os, Again(os, t)) && Trim(os, Again(os, t)) == Again(os, t)
  {
    hide Again, Trim, PrefixLength, NameOf, ValueOf, LowerChar, Trimmed, Lowered;
    var e := Again(os, t);
    AgainForm(os, t);
    AgainLowered(os, t);
    LoweredSame(os, t, e);
    LoweredLength(os, t, e);
    TrimTrims(os, e);
    AgainForm(os, e);
    assert Lower(os, Lower(os, NameOf(t))) == Lower(os, NameOf(t)) by {
      LowerTwice(os, NameOf(t));
    }
  }

  lemma LoweredLength(os: Platform, s: string, e: string)
    requires Lowered(os, s, e)
    ensures |e| == |s| && (e == TERMINATOR ==> PrefixLength(os, e) == |e|)
  {
  }

  lemma LowerTwice(os: Platform, s: string)
    ensures Lower(os, Lower(os, s)) == Lower(os, s)
  {
    forall i | 0 <= i < |s|
      ensures Lower(os, Lower(os, s))[i] == Lower(os, s)[i]
    {
      assert LowerChar(LowerChar(s[i])) == LowerChar(s[i]);
    }
  }

  lemma DanglingIsUnstable(os: Platform, t: string)
    requires IsSwitch(os, t) && Trimmed(os, t) && Dangling(os, t)
    ensures !Stable(os, Again(os, t))
  {
    hide Again, TrimLeft, TrimRight, Trim, LowerChar, PrefixLength;
    var e := Again(os, t);
    AgainForm(os, t);
    assert e == Lower(os, NameOf(t));
    TrimTrims(os, e);
    LoweredSame(os, NameOf(t), e);
    if PrefixLength(os, NameOf(t)) == |NameOf(t)| {
      PrefixTrimmed(os, NameOf(t));
    } else {
      SpaceStays(os, NameOf(t));
      if IsSwitch(os, Trim(os, e)) {
        TrimmedAgain(os, Trim(os, e));
      }
    }
  }

  lemma PrefixTrimmed(os: Platform, s: string)
    requires PrefixLength(os, s) == |s|
    ensures Trimmed(os, s)
  {
  }

  lemma SpaceStays(os: Platform, s: string)
    requires s != "" && IsSpace(os, s[|s| - 1])
    ensures IsSpace(os, Lower(os, s)[|s| - 1])
  {
  }

  /** A trimmed switch without '=' is stored as something that does not end in whitespace. */
  lemma TrimmedAgain(os: Platform, u: string)
    requires IsSwitch(os, u) && Trimmed(os, u) && forall c :: c in u ==> c != '='
    ensures Again(os, u) != "" && !IsSpace(os, Again(os, u)[|Again(os, u)| - 1])
  {
    hide Again;
    assert forall i :: 0 <= i < |u| ==> u[i] in u;
    EqualsFound(u, |u|);
    AgainForm(os, u);
    assert u[..|u|] == u;
  }

  lemma StableExactly(os: Platform, t: string)
    requires IsSwitch(os, t) && Trimmed(os, t)
    ensures Stable(os, Again(os, t)) <==> !Dangling(os, t)
    ensures !Dangling(os, t) ==> Trim(os, Again(os, t)) == Again(os, t)
  {
    hide Again, TrimLeft, TrimRight, Trim;
    if FindEquals(t) + 1 != |t| {
      AgainSame(os, t);
    } else if Dangling(os, t) {
      DanglingIsUnstable(os, t);
    } else {
      var e := Again(os, t);
      AgainForm(os, t);
      assert e == Lower(os, NameOf(t)) && Trimmed(os, e);
      TrimTrims(os, e);
      EqualsFound(e, |e|);
      assert e[..|e|] == e;
      AgainSame(os, e);
      assert Again(os, e) == e by {
        AgainForm(os, e);
      }
    }
  }

  // ---------------------------------------------------------------- the fixed point

  /** Stored switches, read again before other elements: nothing more, and the same only if stable. */
  lemma {:induction false} RelexSwitches(os: Platform, st: seq<string>, at: seq<string>, parsing: bool)
    requires SwitchElems(os, Items(os, at, false)) == [] && (parsing ==> SwitchElems(os, Items(os, at, true)) == [])
    ensures |SwitchElems(os, Items(os, st + at, parsing))| <= |st|
    ensures SwitchElems(os, Items(os, st + at, parsing)) == st
       <==> st == [] || (parsing && forall i :: 0 <= i < |st| ==> Stable(os, st[i]))
    decreases |st|
  {
    hide Trim, IsSwitch, Again, Items, SwitchElems;
    if st == [] {
      ConcatEmpty(at);
    } else {
      var e := Trim(os, st[0]);
      var still := parsing && e != TERMINATOR;
      RelexStep(os, st, at, parsing);
      RelexSwitches(os, st[1..], at, still);
      var rest := SwitchElems(os, Items(os, st[1..] + at, still));
      assert parsing && Stable(os, st[0]) <==> still && IsSwitch(os, e) && Again(os, e) == st[0];
      hide Stable;
      assert st == [st[0]] + st[1..];
      assert ([Again(os, e)] + rest)[1..] == rest;
    }
  }

  lemma RelexStep(os: Platform, st: seq<string>, at: seq<string>, parsing: bool)
    requires st != []
    ensures var e := Trim(os, st[0]);
            var still := parsing && e != TERMINATOR;
            var rest := SwitchElems(os, Items(os, st[1..] + at, still));
            SwitchElems(os, Items(os, st + at, parsing)) == if still && IsSwitch(os, e) then [Again(os, e)] + rest else rest
  {
    hide Trim, IsSwitch, NameOf, ValueOf, Combined;
    ConcatTail(st, at);
  }

  /** Stored arguments, read again after the switches, stay arguments. */
  lemma {:induction false} RelexArgs(os: Platform, elems: seq<string>, parsing: bool, again: bool)
    requires again ==> parsing
    ensures SwitchElems(os, Items(os, ArgElems(Items(os, elems, parsing)), again)) == []
    ensures ArgElems(Items(os, ArgElems(Items(os, elems, parsing)), again)) == ArgElems(Items(os, elems, parsing))
    ensures forall m :: Filed(os, Items(os, ArgElems(Items(os, elems, parsing)), again), m) == m
    decreases |elems|
  {
    hide Trim, IsSwitch, NameOf, ValueOf, Combined, Key;
    if elems != [] {
      var e := Trim(os, elems[0]);
      var still := parsing && e != TERMINATOR;
      var rest := ArgElems(Items(os, elems[1..], still));
      var items := Items(os, elems, parsing);
      assert items[1..] == Items(os, elems[1..], still);
      if still && IsSwitch(os, e) {
        RelexArgs(os, elems[1..], still, again);
        assert ArgElems(items) == rest;
      } else {
        RelexArgs(os, elems[1..], still, again && e != TERMINATOR);
        TrimTrims(os, elems[0]);
        TrimTrims(os, e);
        ArgElemsHead(os, e, rest, again);
        assert ArgElems(items) == [e] + rest;
      }
    }
  }

  /** An element that is not taken as a switch becomes the first argument. */
  lemma ArgElemsHead(os: Platform, e: string, rest: seq<string>, again: bool)
    requires Trim(os, e) == e && !(again && e != TERMINATOR && IsSwitch(os, e))
    ensures Items(os, [e] + rest, again)[0] == Arg(e)
    ensures Items(os, [e] + rest, again)[1..] == Items(os, rest, again && e != TERMINATOR)
  {
    hide Trim, IsSwitch, NameOf, ValueOf;
    ConcatTail([e], rest);
    ConcatEmpty(rest);
    assert ([e] + rest)[1..] == rest;
  }

  /** Token and stored form of one element that was taken as a switch. */
  predicate Stored(os: Platform, token: string, elem: string)
  {
    IsSwitch(os, token) && Trimmed(os, token) && elem == Again(os, token)
  }

  lemma {:induction false} TokensStored(os: Platform, elems: seq<string>, parsing: bool)
    ensures |SwitchElems(os, Items(os, elems, parsing))| == |SwitchTokens(os, elems, parsing)|
    ensures forall i :: 0 <= i < |SwitchTokens(os, elems, parsing)| ==>
              Stored(os, SwitchTokens(os, elems, parsing)[i], SwitchElems(os, Items(os, elems, parsing))[i])
    decreases |elems|
  {
    hide Trim, Trimmed, IsSwitch, NameOf, ValueOf, Combined, Stored;
    if elems != [] {
      var e := Trim(os, elems[0]);
      var still := parsing && e != TERMINATOR;
      TokensStored(os, elems[1..], still);
      var items := Items(os, elems, parsing);
      assert items[1..] == Items(os, elems[1..], still);
      if still && IsSwitch(os, e) {
        assert Stored(os, e, Again(os, e)) by {
          TrimTrims(os, elems[0]);
          StoredAgain(os, e);
        }
        assert SwitchElems(os, items) == [Again(os, e)] + SwitchElems(os, items[1..]);
        assert SwitchTokens(os, elems, parsing) == [e] + SwitchTokens(os, elems[1..], still);
      } else {
        assert SwitchElems(os, items) == SwitchElems(os, items[1..]);
        assert SwitchTokens(os, elems, parsing) == SwitchTokens(os, elems[1..], still);
      }
    }
  }

  lemma StoredAgain(os: Platform, t: string)
    requires IsSwitch(os, t) && Trimmed(os, t)
    ensures Stored(os, t, Again(os, t))
  {
  }

  /** Without a dangling token the switches file the same values when they are read again. */
  lemma {:induction false} RelexFiled(os: Platform, elems: seq<string>, at: seq<string>, parsing: bool, m: map<string, string>)
    requires forall t :: t in SwitchTokens(os, elems, parsing) ==> !Dangling(os, t)
    requires forall n :: Filed(os, Items(os, at, true), n) == n
    ensures Filed(os, Items(os, SwitchElems(os, Items(os, elems, parsing)) + at, true), m)
         == Filed(os, Items(os, elems, parsing), m)
    ensures ArgElems(Items(os, SwitchElems(os, Items(os, elems, parsing)) + at, true)) == ArgElems(Items(os, at, true))
    decreases |elems|
  {
    hide Trim, Trimmed, IsSwitch, NameOf, ValueOf, Combined, Key, Dangling, Again, Stable;
    var items := Items(os, elems, parsing);
    if elems == [] {
      ConcatEmpty(at);
    } else {
      var t := Trim(os, elems[0]);
      var still := parsing && t != TERMINATOR;
      var st := SwitchElems(os, Items(os, elems[1..], still));
      assert items[1..] == Items(os, elems[1..], still);
      if still && IsSwitch(os, t) {
        var name, value := NameOf(t), ValueOf(t);
        RelexFiled(os, elems[1..], at, still, m[Key(os, name) := value]);
        assert t in SwitchTokens(os, elems, parsing);
        TrimTrims(os, elems[0]);
        RelexHead(os, t, st + at);
        ConcatAssoc([Again(os, t)], st, at);
        assert SwitchElems(os, items) == [Again(os, t)] + st by {
          AgainIs(os, t);
        }
      } else {
        assert SwitchTokens(os, elems, parsing) == SwitchTokens(os, elems[1..], still);
        RelexFiled(os, elems[1..], at, still, m);
      }
    }
  }

  lemma AgainIs(os: Platform, t: string)
    ensures Again(os, t) == Combined(os, NameOf(t), ValueOf(t))
  {
  }

  /** A stable switch, read again in front of others. */
  lemma RelexHead(os: Platform, t: string, rest: seq<string>)
    requires IsSwitch(os, t) && Trimmed(os, t) && !Dangling(os, t)
    ensures var items := Items(os, [Again(os, t)] + rest, true);
            && items[0].Switch? && Key(os, items[0].name) == Key(os, NameOf(t)) && items[0].value == ValueOf(t)
            && items[1..] == Items(os, rest, true)
  {
    hide Trim, Trimmed, IsSwitch, NameOf, ValueOf, Dangling, Again;
    var e := Again(os, t);
    StableExactly(os, t);
    assert Stable(os, e);
    AgainForm(os, t);
    LowerTwice(os, NameOf(t));
    ConcatTail([e], rest);
    ConcatEmpty(rest);
    assert ([e] + rest)[1..] == rest;
  }

  /**
   Reading a command line's own argv again changes nothing, exactly when no element that was taken
   as a switch is `name=` with a name that is only a prefix or ends in whitespace.
   */
  lemma ReadingAgain(os: Platform, argv: seq<string>)
    ensures Initial(os, Initial(os, argv).argv) == Initial(os, argv)
       <==> argv == [] || forall t :: t in SwitchTokens(os, argv[1..], true) ==> !Dangling(os, t)
  {
    hide Trim, Items, SwitchTokens, SwitchElems, ArgElems, Filed, Dangling, Stable, Initial;
    var elems := if argv == [] then [] else argv[1..];
    var items := Items(os, elems, true);
    var st, at := SwitchElems(os, items), ArgElems(items);
    var items2 := Items(os, st + at, true);
    var program := ReadTwice(os, argv);
    RelexArgs(os, elems, true, true);
    RelexArgs(os, elems, true, false);
    RelexSwitches(os, st, at, true);
    StoredStable(os, elems);
    SameParsed(program, st, at, Filed(os, items, map[]),
               SwitchElems(os, items2), ArgElems(items2), Filed(os, items2, map[]));
    if forall t :: t in SwitchTokens(os, elems, true) ==> !Dangling(os, t) {
      RelexFiled(os, elems, at, true, map[]);
    }
    if argv == [] {
      NoTokens(os);
    }
  }

  /** What reading argv gives, and what reading the result gives. */
  lemma ReadTwice(os: Platform, argv: seq<string>) returns (program: string)
    ensures var items := Items(os, if argv == [] then [] else argv[1..], true);
            var st, at := SwitchElems(os, items), ArgElems(items);
            var items2 := Items(os, st + at, true);
            && Initial(os, argv) == Parsed([program] + st + at, Filed(os, items, map[]), 1 + |st|)
            && Initial(os, Initial(os, argv).argv)
               == Parsed([program] + SwitchElems(os, items2) + ArgElems(items2), Filed(os, items2, map[]),
                         1 + |SwitchElems(os, items2)|)
  {
    hide Trim, Items, SwitchElems, ArgElems, Filed;
    program := if argv == [] then "" else Trim(os, argv[0]);
    ProgramTrimmed(os, argv);
    var first := Initial(os, argv).argv;
    var items := Items(os, if argv == [] then [] else argv[1..], true);
    assert first == [program] + SwitchElems(os, items) + ArgElems(items);
    assert first[0] == program && first[1..] == SwitchElems(os, items) + ArgElems(items);
  }

  lemma SameParsed(program: string, st: seq<string>, at: seq<string>, m: map<string, string>,
                   st2: seq<string>, at2: seq<string>, m2: map<string, string>)
    ensures Parsed([program] + st + at, m, 1 + |st|) == Parsed([program] + st2 + at2, m2, 1 + |st2|)
       <==> st == st2 && at == at2 && m == m2
  {
    var a, b := [program] + st + at, [program] + st2 + at2;
    assert st == a[1..1 + |st|] && st2 == b[1..1 + |st2|];
    assert at == a[1 + |st|..] && at2 == b[1 + |st2|..];
  }

  /** The stored switches are stable just if no token dangles. */
  lemma StoredStable(os: Platform, elems: seq<string>)
    ensures var st := SwitchElems(os, Items(os, elems, true));
            (forall i :: 0 <= i < |st| ==> Stable(os, st[i]))
              <==> forall t :: t in SwitchTokens(os, elems, true) ==> !Dangling(os, t)
  {
    hide Trim, Trimmed, IsSwitch, Items, SwitchTokens, SwitchElems, Dangling, Again, Stable;
    var tokens, st := SwitchTokens(os, elems, true), SwitchElems(os, Items(os, elems, true));
    TokensStored(os, elems, true);
    forall i | 0 <= i < |tokens|
      ensures Stable(os, st[i]) <==> !Dangling(os, tokens[i])
    {
      assert Stored(os, tokens[i], st[i]);
      StableExactly(os, tokens[i]);
    }
  }

  /** `--=` is taken as a switch, stored as `--`, and ends the switches when it is read again. */
  lemma EmptyNameBecomesTerminator(os: Platform)
    ensures Initial(os, Initial(os, ["p", "--="]).argv) != Initial(os, ["p", "--="])
  {
    hide Initial;
    var elems := ["--="];
    TrimTrims(os, "--=");
    EqualsFound("--=", 2);
    assert NameOf("--=") == "--" && Dangling(os, "--=");
    assert SwitchTokens(os, elems, true) == ["--="] + SwitchTokens(os, [], true);
    assert ["p", "--="][1..] == elems;
    assert "--=" in SwitchTokens(os, elems, true);
    ReadingAgain(os, ["p", "--="]);
  }

  lemma NoTokens(os: Platform)
    ensures SwitchTokens(os, [], true) == []
  {
  }

  lemma ProgramTrimmed(os: Platform, argv: seq<string>)
    ensures var program := if argv == [] then "" else Trim(os, argv[0]);
            Trim(os, program) == program
  {
    TrimTrims(os, if argv == [] then "" else argv[0]);
    TrimTrims(os, if argv == [] then "" else Trim(os, argv[0]));
  }

  // ---------------------------------------------------------------- the positional arguments

  function WithoutTerminator(args: seq<string>): (rest: seq<string>)
  {
    if args == [] then []
    else if args[0] == TERMINATOR then args[1..]
    else [args[0]] + WithoutTerminator(args[1..])
  }

  lemma WithoutFirst(args: seq<string>, i: nat)
    requires i < |args| && args[i] != TERMINATOR
    ensures args[..i] + WithoutTerminator(args[i..]) == args[..i + 1] + WithoutTerminator(args[i + 1..])
  {
    var rest := WithoutTerminator(args[i + 1..]);
    assert args[i..][1..] == args[i + 1..];
    assert WithoutTerminator(args[i..]) == [args[i]] + rest;
    hide WithoutTerminator;
    ConcatAssoc(args[..i], [args[i]], rest);
    assert args[..i + 1] == args[..i] + [args[i]];
  }

  function FirstTerminator(os: Platform, elems: seq<string>): (k: nat)
    ensures k <= |elems|
  {
    if elems == [] || Trim(os, elems[0]) == TERMINATOR then 0 else 1 + FirstTerminator(os, elems[1..])
  }

  function TrimAll(os: Platform, elems: seq<string>): (trimmed: seq<string>)
  {
    if elems == [] then [] else [Trim(os, elems[0])] + TrimAll(os, elems[1..])
  }

  /**
   GetArgs of a command line that was read: the arguments in front of the terminator and, whatever
   they look like, all elements after it; switches come only from in front of it.
   */
  lemma {:induction false} ArgsAroundTerminator(os: Platform, elems: seq<string>)
    ensures var k := FirstTerminator(os, elems);
            var front := Items(os, elems[..k], true);
            && WithoutTerminator(ArgElems(Items(os, elems, true)))
               == ArgElems(front) + TrimAll(os, if k < |elems| then elems[k + 1..] else [])
            && SwitchElems(os, Items(os, elems, true)) == SwitchElems(os, front)
    decreases |elems|
  {
    hide Trim, ItemOf, Combined;
    var k := FirstTerminator(os, elems);
    if elems != [] {
      var t := Trim(os, elems[0]);
      if t == TERMINATOR {
        AllArgs(os, elems[1..]);
        assert Items(os, elems, true) == [Arg(t)] + Items(os, elems[1..], false) by {
          assert ItemOf(os, t, false) == Arg(t) by {
            NotParsing(os, t);
          }
        }
        assert Items(os, elems[..0], true) == [];
      } else {
        var item := ItemOf(os, t, true);
        ArgsAroundTerminator(os, elems[1..]);
        assert elems[..k][1..] == elems[1..][..k - 1];
        assert k < |elems| ==> elems[k + 1..] == elems[1..][k..];
        assert Items(os, elems[..k], true) == [item] + Items(os, elems[1..][..k - 1], true);
        assert Items(os, elems, true) == [item] + Items(os, elems[1..], true);
        assert item.Arg? ==> item.text != TERMINATOR by {
          NotTerminator(os, t);
        }
        if item.Arg? {
          ConcatAssoc([item.text], ArgElems(Items(os, elems[1..][..k - 1], true)),
                      TrimAll(os, if k < |elems| then elems[k + 1..] else []));
        }
      }
    }
  }

  lemma NotParsing(os: Platform, t: string)
    ensures ItemOf(os, t, false) == Arg(t)
  {
  }

  lemma NotTerminator(os: Platform, t: string)
    requires t != TERMINATOR
    ensures ItemOf(os, t, true).Arg? ==> ItemOf(os, t, true).text != TERMINATOR
  {
  }

  lemma {:induction false} AllArgs(os: Platform, elems: seq<string>)
    ensures ArgElems(Items(os, elems, false)) == TrimAll(os, elems) && SwitchElems(os, Items(os, elems, false)) == []
    decreases |elems|
  {
    hide Trim, IsSwitch, NameOf, ValueOf, Combined;
    if elems != [] {
      AllArgs(os, elems[1..]);
      assert Items(os, elems, false)[1..] == Items(os, elems[1..], false);
    }
  }

  // ---------------------------------------------------------------- the arguments string

  /** How one element is written: the name of a switch as it is, values and arguments quoted on Windows. */
  function Text(os: Platform, elem: string, parsing: bool, placeholders: bool): (text: string)
  {
    if parsing && IsSwitch(os, elem) then
      NameOf(elem) + (if ValueOf(elem) == "" then "" else "=" + Written(os, ValueOf(elem), placeholders))
    else Written(os, elem, placeholders)
  }

  function Written(os: Platform, arg: string, placeholders: bool): string
  {
    if os.Windows? then Quote(arg, placeholders) else arg
  }

  method WriteText(os: Platform, elem: string, parsing: bool, placeholders: bool) returns (text: string)
    ensures text == Text(os, elem, parsing, placeholders)
  {
    if parsing && IsSwitch(os, elem) {
      text := NameOf(elem);
      var value := ValueOf(elem);
      if value != "" {
        if os.Windows? {
          value := QuoteForCommandLineToArgvW(value, placeholders);
        }
        text := text + ("=" + value);
      }
    } else if os.Windows? {
      text := QuoteForCommandLineToArgvW(elem, placeholders);
    } else {
      text := elem;
    }
  }

  function Texts(os: Platform, elems: seq<string>, parsing: bool, placeholders: bool): (texts: seq<string>)
    ensures |texts| == |elems|
  {
    if elems == [] then []
    else
      var still := parsing && elems[0] != TERMINATOR;
      [Text(os, elems[0], still, placeholders)] + Texts(os, elems[1..], still, placeholders)
  }

  lemma AppendedStep(params: string, text: string, next: seq<string>)
    ensures params + Appended([text] + next) == (params + " " + text) + Appended(next)
  {
    assert ([text] + next)[1..] == next;
    ConcatAssoc(params, [' '], text + Appended(next));
    ConcatAssoc(params + " ", text, Appended(next));
  }

  lemma JoinStep(text: string, next: seq<string>)
    ensures Join([text] + next) == ("" + text) + Appended(next)
  {
    assert ([text] + next)[1..] == next;
    assert "" + text == text;
  }

  lemma JoinNothing(params: string)
    ensures Join([]) == "" && params + Appended([]) == params
  {
  }
}
