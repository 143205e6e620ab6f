/**
 The quoting of command_line.cc for CommandLineToArgvW, and the rules by which that function takes
 an arguments string apart again.
 */
module ArgvQuoting {
  import opened Sequences

  const BACKSLASH: char := '\\'
  const QUOTE: char := '\"'

  predicate IsBlank(c: char) { c == ' ' || c == '\t' }

  /** How many backslashes s starts with. */
  function Run(s: string): (n: nat)
    ensures n <= |s|
    ensures forall i :: 0 <= i < n ==> s[i] == BACKSLASH
    ensures n < |s| ==> s[n] != BACKSLASH
  {
    if s != "" && s[0] == BACKSLASH then 1 + Run(s[1..]) else 0
  }

  function Backslashes(n: nat): (s: string)
    ensures |s| == n
  {
    seq(n, _ => BACKSLASH)
  }

  // ---------------------------------------------------------------- CommandLineToArgvW

  /**
   The rest of an argument of which arg has been read: 2n backslashes before a quote stand for n,
   2n + 1 for n and a literal quote; other backslashes stand for themselves; a quote starts or ends
   a quoted part, except that two quotes inside one stand for a literal quote; a blank outside a
   quoted part ends the argument. Returns the argument and what follows it.
   */
  function ParseArg(s: string, quoted: bool, arg: string): (r: (string, string))
    ensures |r.1| <= |s|
    decreases |s|
  {
    var n := Run(s);
    if n > 0 then
      if n == |s| || s[n] != QUOTE then ParseArg(s[n..], quoted, arg + Backslashes(n))
      else if n % 2 == 0 then ParseArg(s[n..], quoted, arg + Backslashes(n / 2))
      else ParseArg(s[n + 1..], quoted, arg + Backslashes(n / 2) + [QUOTE])
    else if s == "" || (IsBlank(s[0]) && !quoted) then (arg, s)
    else if s[0] != QUOTE then ParseArg(s[1..], quoted, arg + [s[0]])
    else if quoted && |s| > 1 && s[1] == QUOTE then ParseArg(s[2..], quoted, arg + [QUOTE])
    else ParseArg(s[1..], !quoted, arg)
  }

  /** The argument list that an arguments string stands for. */
  function Parse(s: string): (args: seq<string>)
    decreases |s|
  {
    if s == "" then []
    else if IsBlank(s[0]) then Parse(s[1..])
    else
      var (arg, rest) := ParseArg(s, false, "");
      StartConsumes(s);
      [arg] + Parse(rest)
  }

  /** An argument that has begun takes up at least one character. */
  lemma StartConsumes(s: string)
    requires s != "" && !IsBlank(s[0])
    ensures |ParseArg(s, false, "").1| < |s|
  {
  }

  // ---------------------------------------------------------------- QuoteForCommandLineToArgvW

  predicate Quotable(c: char, placeholders: bool)
  {
    c == ' ' || c == BACKSLASH || c == QUOTE || (placeholders && c == '%')
  }

  predicate NeedsQuotes(arg: string, placeholders: bool)
  {
    exists i :: 0 <= i < |arg| && Quotable(arg[i], placeholders)
  }

  /** What stands between the quotes. */
  function QuoteBody(a: string): (s: string)
    decreases |a|
  {
    var n := Run(a);
    if n > 0 then
      Backslashes(if n == |a| || a[n] == QUOTE then 2 * n else n) + QuoteBody(a[n..])
    else if a == "" then ""
    else if a[0] == QUOTE then [BACKSLASH, QUOTE] + QuoteBody(a[1..])
    else [a[0]] + QuoteBody(a[1..])
  }

  function Quote(arg: string, placeholders: bool): (s: string)
  {
    if NeedsQuotes(arg, placeholders) then [QUOTE] + QuoteBody(arg) + [QUOTE] else arg
  }

  method PushBackslashes(before: string, count: nat) returns (out: string)
    ensures out == before + Backslashes(count)
  {
    out := before;
    assert before + Backslashes(0) == before;
    for j := 0 to count
      invariant out == before + Backslashes(j)
    {
      ConcatAssoc(before, Backslashes(j), [BACKSLASH]);
      assert Backslashes(j) + [BACKSLASH] == Backslashes(j + 1);
      out := out + [BACKSLASH];
    }
  }

  lemma RunFound(s: string, n: nat)
    requires n <= |s| && (forall i :: 0 <= i < n ==> s[i] == BACKSLASH) && (n < |s| ==> s[n] != BACKSLASH)
    ensures Run(s) == n
  {
  }

  /** The extent of the run of backslashes that arg has at start. */
  method FindEnd(arg: string, start: nat) returns (end: nat)
    requires start < |arg| && arg[start] == BACKSLASH
    ensures start < end <= |arg|
    ensures forall k :: start <= k < end ==> arg[k] == BACKSLASH
    ensures end < |arg| ==> arg[end] != BACKSLASH
  {
    end := start + 1;
    while end < |arg| && arg[end] == BACKSLASH
      invariant start < end <= |arg|
      invariant forall k :: start <= k < end ==> arg[k] == BACKSLASH
    {
      end := end + 1;
    }
  }

  /** One pass of the loop: the quoted form of the run or character at i, and where the next starts. */
  method QuotePiece(arg: string, i: nat) returns (piece: string, next: nat)
    requires i < |arg|
    ensures i < next <= |arg|
    ensures QuoteBody(arg[i..]) == piece + QuoteBody(arg[next..])
  {
    hide QuoteBody, Run, Backslashes;
    if arg[i] == BACKSLASH {
      next := FindEnd(arg, i);
      var count := if next == |arg| || arg[next] == QUOTE then (next - i) * 2 else next - i;
      BodyRun(arg, i, next);
      piece := PushBackslashes("", count);
      ConcatEmpty(Backslashes(count));
    } else {
      BodyCharacter(arg, i);
      piece := if arg[i] == QUOTE then [BACKSLASH, QUOTE] else [arg[i]];
      next := i + 1;
    }
  }

  method QuoteForCommandLineToArgvW(arg: string, placeholders: bool) returns (out: string)
    ensures out == Quote(arg, placeholders)
  {
    if !NeedsQuotes(arg, placeholders) {
      return arg;
    }
    hide QuoteBody, NeedsQuotes;
    out := [QUOTE];
    var i := 0;
    assert arg[0..] == arg;
    while i < |arg|
      invariant i <= |arg|
      invariant out + QuoteBody(arg[i..]) == [QUOTE] + QuoteBody(arg)
    {
      var piece, next := QuotePiece(arg, i);
      ConcatAssoc(out, piece, QuoteBody(arg[next..]));
      out, i := out + piece, next;
    }
    BodyOfNothing(arg);
    ConcatEmpty(out);
    out := out + [QUOTE];
  }

  lemma BodyOfNothing(arg: string)
    ensures QuoteBody(arg[|arg|..]) == ""
  {
  }

  lemma BodyRun(arg: string, i: nat, end: nat)
    requires i < end <= |arg| && (forall k :: i <= k < end ==> arg[k] == BACKSLASH)
    requires end < |arg| ==> arg[end] != BACKSLASH
    ensures var count := if end == |arg| || arg[end] == QUOTE then 2 * (end - i) else end - i;
            QuoteBody(arg[i..]) == Backslashes(count) + QuoteBody(arg[end..])
  {
    RunFound(arg[i..], end - i);
    assert arg[i..][end - i..] == arg[end..];
  }

  lemma BodyCharacter(arg: string, i: nat)
    requires i < |arg| && arg[i] != BACKSLASH
    ensures QuoteBody(arg[i..])
         == (if arg[i] == QUOTE then [BACKSLASH, QUOTE] else [arg[i]]) + QuoteBody(arg[i + 1..])
  {
    RunFound(arg[i..], 0);
    assert arg[i..][1..] == arg[i + 1..];
  }

  // ---------------------------------------------------------------- reading back what was quoted

  /** Where an argument ends in a line: at the end, or before the blank that parts it from the next. */
  predicate Ends(rest: string) { rest == "" || IsBlank(rest[0]) }

  lemma RunAhead(n: nat, t: string)
    requires t != "" ==> t[0] != BACKSLASH
    ensures Run(Backslashes(n) + t) == n
    ensures (Backslashes(n) + t)[n..] == t
  {
    RunFound(Backslashes(n) + t, n);
  }

  lemma StepRun(n: nat, t: string, quoted: bool, arg: string)
    requires n > 0 && (t != "" ==> t[0] != BACKSLASH && t[0] != QUOTE)
    ensures ParseArg(Backslashes(n) + t, quoted, arg) == ParseArg(t, quoted, arg + Backslashes(n))
  {
    RunAhead(n, t);
  }

  lemma StepEven(k: nat, t: string, quoted: bool, arg: string)
    requires k > 0
    ensures ParseArg(Backslashes(2 * k) + ([QUOTE] + t), quoted, arg)
         == ParseArg([QUOTE] + t, quoted, arg + Backslashes(k))
  {
    var s := Backslashes(2 * k) + ([QUOTE] + t);
    RunAhead(2 * k, [QUOTE] + t);
    var n := Run(s);
    assert n % 2 == 0 && n / 2 == k && n < |s| && s[n] == QUOTE;
    hide Run, Backslashes;
  }

  lemma {:induction false} StepOdd(k: nat, t: string, quoted: bool, arg: string)
    ensures ParseArg(Backslashes(2 * k + 1) + ([QUOTE] + t), quoted, arg)
         == ParseArg(t, quoted, arg + Backslashes(k) + [QUOTE])
  {
    var s := Backslashes(2 * k + 1) + ([QUOTE] + t);
    RunAhead(2 * k + 1, [QUOTE] + t);
    var n := Run(s);
    assert n % 2 == 1 && n / 2 == k && s[n] == QUOTE;
    assert s[n + 1..] == t;
    hide Run, Backslashes;
  }

  lemma StepChar(c: char, t: string, quoted: bool, arg: string)
    requires c != BACKSLASH && c != QUOTE && (IsBlank(c) ==> quoted)
    ensures ParseArg([c] + t, quoted, arg) == ParseArg(t, quoted, arg + [c])
  {
    RunFound([c] + t, 0);
    assert ([c] + t)[1..] == t;
  }

  lemma CloseParses(rest: string, arg: string)
    requires Ends(rest)
    ensures ParseArg([QUOTE] + rest, true, arg) == (arg, rest)
  {
    RunFound([QUOTE] + rest, 0);
    assert ([QUOTE] + rest)[1..] == rest;
    RunFound(rest, 0);
  }

  /** How QuoteBody goes through a run of backslashes and what follows it. */
  lemma {:induction false} BodyForm(a: string)
    ensures var n := Run(a);
            && a[..n] == Backslashes(n)
            && (n == |a| ==> QuoteBody(a) == Backslashes(2 * n))
            && (n < |a| && a[n] == QUOTE ==>
                  QuoteBody(a) == Backslashes(2 * n + 1) + ([QUOTE] + QuoteBody(a[n + 1..])))
            && (n < |a| && a[n] != QUOTE ==>
                  QuoteBody(a) == Backslashes(n) + ([a[n]] + QuoteBody(a[n + 1..])))
  {
    hide QuoteBody;
    var n := Run(a);
    assert a[0..] == a;
    if n > 0 {
      BodyRun(a, 0, n);
    }
    BodyOfNothing(a);
    if n < |a| {
      BodyCharacter(a, n);
      var rest := QuoteBody(a[n + 1..]);
      if a[n] == QUOTE {
        assert Backslashes(2 * n) + [BACKSLASH] == Backslashes(2 * n + 1);
        assert Backslashes(2 * n) + ([BACKSLASH, QUOTE] + rest) == Backslashes(2 * n + 1) + ([QUOTE] + rest);
      }
    }
  }

  /** A run of backslashes that is not before a quote, and the character after it. */
  lemma StepOther(n: nat, c: char, t: string, arg: string)
    requires c != BACKSLASH && c != QUOTE
    ensures ParseArg(Backslashes(n) + ([c] + t), true, arg) == ParseArg(t, true, (arg + Backslashes(n)) + [c])
  {
    hide ParseArg;
    if n > 0 {
      StepRun(n, [c] + t, true, arg);
    } else {
      assert Backslashes(0) + ([c] + t) == [c] + t && arg + Backslashes(0) == arg;
    }
    StepChar(c, t, true, arg + Backslashes(n));
  }

  /** Inside quotes, what QuoteBody wrote reads back as it was, up to the closing quote. */
  lemma {:induction false} BodyParses(a: string, rest: string, arg: string)
    requires Ends(rest)
    ensures ParseArg(QuoteBody(a) + ([QUOTE] + rest), true, arg) == (arg + a, rest)
    decreases |a|
  {
    hide Backslashes, QuoteBody, ParseArg, Run, Ends;
    var n := Run(a);
    var close := [QUOTE] + rest;
    BodyForm(a);
    if n == |a| {
      assert a == a[..n];
      BodyEnds(n, rest, arg);
    } else {
      var b := a[n + 1..];
      var tail := QuoteBody(b) + close;
      var soFar := (arg + Backslashes(n)) + [a[n]];
      BodyParses(b, rest, soFar);
      assert soFar + b == arg + a by {
        assert a == a[..n] + [a[n]] + b;
        ConcatAssoc(arg, Backslashes(n), [a[n]] + b);
        ConcatAssoc(arg + Backslashes(n), [a[n]], b);
      }
      ConcatAssoc([a[n]], QuoteBody(b), close);
      ConcatAssoc([QUOTE], QuoteBody(b), close);
      if a[n] == QUOTE {
        ConcatAssoc(Backslashes(2 * n + 1), [QUOTE] + QuoteBody(b), close);
        StepOdd(n, tail, true, arg);
      } else {
        ConcatAssoc(Backslashes(n), [a[n]] + QuoteBody(b), close);
        StepOther(n, a[n], tail, arg);
      }
    }
  }

  /** A final run of backslashes, which QuoteBody doubled. */
  lemma BodyEnds(n: nat, rest: string, arg: string)
    requires Ends(rest)
    ensures ParseArg(Backslashes(2 * n) + ([QUOTE] + rest), true, arg) == (arg + Backslashes(n), rest)
  {
    hide ParseArg;
    CloseParses(rest, arg + Backslashes(n));
    if n > 0 {
      StepEven(n, rest, true, arg);
    } else {
      assert Backslashes(0) + ([QUOTE] + rest) == [QUOTE] + rest && arg + Backslashes(0) == arg;
    }
  }

  // ---------------------------------------------------------------- what every text stands for

  /** Free of what could quote or join: reads as it is, cut at its tabs. */
  predicate Bare(a: string) { forall i :: 0 <= i < |a| ==> a[i] != ' ' && a[i] != QUOTE }

  predicate TabFree(a: string) { forall i :: 0 <= i < |a| ==> a[i] != '\t' }

  function FirstTab(a: string): (k: nat)
    ensures k <= |a| && TabFree(a[..k])
    ensures k < |a| ==> a[k] == '\t'
  {
    if a == "" || a[0] == '\t' then 0
    else
      assert a[..1 + FirstTab(a[1..])] == [a[0]] + a[1..][..FirstTab(a[1..])];
      1 + FirstTab(a[1..])
  }

  lemma {:induction false} FirstTabFound(a: string, k: nat)
    requires k <= |a| && (forall i :: 0 <= i < k ==> a[i] != '\t') && (k < |a| ==> a[k] == '\t')
    ensures FirstTab(a) == k
  {
    if k > 0 {
      FirstTabFound(a[1..], k - 1);
    }
  }

  /** How far one step of ParseArg goes through an unquoted text. */
  function Stride(a: string): (m: nat)
    requires a != ""
    ensures 0 < m <= |a|
  {
    if Run(a) > 0 then Run(a) else 1
  }

  lemma StrideParses(a: string, u: string, arg: string)
    requires a != "" && Bare(a) && a[0] != '\t'
    requires Run(a) < |a| || u == "" || (u[0] != BACKSLASH && u[0] != QUOTE)
    ensures ParseArg(a + u, false, arg) == ParseArg(a[Stride(a)..] + u, false, arg + a[..Stride(a)])
  {
    var n := Run(a);
    var s := a + u;
    RunFound(s, n);
    if n > 0 {
      assert s[n..] == a[n..] + u;
      assert a[..n] == Backslashes(n);
      assert n < |s| ==> s[n] != QUOTE;
    } else {
      assert s[1..] == a[1..] + u;
      assert a[..1] == [s[0]];
    }
  }

  lemma {:induction false} StrideTabFree(a: string)
    requires a != "" && a[0] != '\t'
    ensures FirstTab(a) == Stride(a) + FirstTab(a[Stride(a)..])
  {
    FirstTabFound(a, Stride(a) + FirstTab(a[Stride(a)..]));
  }

  lemma BareStops(a: string, rest: string, arg: string)
    requires (a != "" && a[0] == '\t') || (a == "" && Ends(rest))
    ensures ParseArg(a + rest, false, arg) == (arg, a + rest)
  {
    RunFound(a + rest, 0);
  }

  lemma {:induction false} BareArg(a: string, rest: string, arg: string)
    requires Bare(a) && Ends(rest)
    ensures ParseArg(a + rest, false, arg) == (arg + a[..FirstTab(a)], a[FirstTab(a)..] + rest)
    decreases |a|
  {
    hide ParseArg, Run, Stride;
    if a == "" || a[0] == '\t' {
      BareStops(a, rest, arg);
      assert arg + a[..0] == arg && a[0..] + rest == a + rest;
    } else {
      hide FirstTab;
      var m := Stride(a);
      var b := a[m..];
      var k := FirstTab(b);
      StrideParses(a, rest, arg);
      BareArg(b, rest, arg + a[..m]);
      StrideTabFree(a);
      assert a[m + k..] == b[k..];
      PrefixExtends(arg, a, m, m + k);
      assert a[m..m + k] == b[..k];
    }
  }

  /** A bare text delivers what it stands for alone, whatever follows it. */
  lemma {:induction false} BareDelivers(a: string, rest: string)
    requires Bare(a) && Ends(rest)
    ensures Parse(a + rest) == Parse(a) + Parse(rest)
    decreases |a|
  {
    hide ParseArg, Run, FirstTab;
    if a == "" {
      assert a + rest == rest;
    } else if a[0] == '\t' {
      ConcatTail(a, rest);
      BareDelivers(a[1..], rest);
    } else {
      var k := FirstTab(a);
      BareBegins(a, rest);
      BareBegins(a, "");
      BareDelivers(a[k..], rest);
      assert a + "" == a && a[k..] + "" == a[k..];
      ConcatAssoc([a[..k]], Parse(a[k..]), Parse(rest));
    }
  }

  lemma BareBegins(a: string, rest: string)
    requires Bare(a) && Ends(rest) && a != "" && a[0] != '\t'
    ensures Parse(a + rest) == [a[..FirstTab(a)]] + Parse(a[FirstTab(a)..] + rest)
    ensures FirstTab(a) > 0
  {
    hide ParseArg, Run;
    BareArg(a, rest, "");
    StartConsumes(a + rest);
    assert "" + a[..FirstTab(a)] == a[..FirstTab(a)];
  }

  /** The pieces of a bare text: nonempty and tab-free; just itself when it is so too. */
  lemma {:induction false} BarePieces(a: string)
    requires Bare(a)
    ensures forall x :: x in Parse(a) ==> x != "" && TabFree(x) && Bare(x)
    ensures a != "" && TabFree(a) ==> Parse(a) == [a]
    decreases |a|
  {
    hide ParseArg, Run;
    if a != "" && a[0] == '\t' {
      BarePieces(a[1..]);
    } else if a != "" {
      var k := FirstTab(a);
      BareBegins(a, "");
      assert a + "" == a && a[k..] + "" == a[k..];
      BarePieces(a[k..]);
      if TabFree(a) {
        FirstTabFound(a, |a|);
        assert a[..|a|] == a && a[|a|..] == "";
      }
    }
  }

  /** Quoted, an argument delivers exactly itself, also after an unquoted head such as `name=`. */
  lemma QuotedDelivers(head: string, a: string, rest: string)
    requires Bare(head) && TabFree(head) && Ends(rest)
    requires head != "" ==> head[|head| - 1] != BACKSLASH
    ensures Parse(head + ([QUOTE] + QuoteBody(a) + [QUOTE]) + rest) == [head + a] + Parse(rest)
  {
    hide ParseArg, QuoteBody, Run;
    var quoted := [QUOTE] + (QuoteBody(a) + ([QUOTE] + rest));
    var s := head + quoted;
    assert head + ([QUOTE] + QuoteBody(a) + [QUOTE]) + rest == s;
    HeadParses(head, QuoteBody(a) + ([QUOTE] + rest), "");
    BodyParses(a, rest, "" + head);
    assert "" + head == head;
    assert s[0] == if head != "" then head[0] else QUOTE;
    StartConsumes(s);
  }

  /** An unquoted head is read up to the quote that opens. */
  lemma {:induction false} HeadParses(head: string, t: string, arg: string)
    requires Bare(head) && TabFree(head)
    requires head != "" ==> head[|head| - 1] != BACKSLASH
    ensures ParseArg(head + ([QUOTE] + t), false, arg) == ParseArg(t, true, arg + head)
    decreases |head|
  {
    if head == "" {
      var s := head + ([QUOTE] + t);
      RunFound(s, 0);
      assert s[1..] == t && arg + head == arg;
    } else {
      hide ParseArg, Stride;
      var m := Stride(head);
      StrideParses(head, [QUOTE] + t, arg);
      HeadParses(head[m..], t, arg + head[..m]);
      PrefixExtends(arg, head, m, |head|);
      assert head[..|head|] == head && head[m..|head|] == head[m..];
    }
  }

  // ---------------------------------------------------------------- whole lines

  /** The texts, each after the first preceded by the space that joins it. */
  function Join(texts: seq<string>): (line: string)
  {
    if texts == [] then "" else texts[0] + Appended(texts[1..])
  }

  function Appended(texts: seq<string>): (line: string)
    ensures Ends(line)
  {
    if texts == [] then "" else [' '] + (texts[0] + Appended(texts[1..]))
  }

  /** Wherever it stands in a line, text is read as the arguments of list. */
  ghost predicate Delivers(text: string, list: seq<string>)
  {
    forall rest :: Ends(rest) ==> Parse(text + rest) == list + Parse(rest)
  }

  lemma {:induction false} AppendedDelivers(texts: seq<string>, lists: seq<seq<string>>)
    requires |texts| == |lists| && forall i :: 0 <= i < |texts| ==> Delivers(texts[i], lists[i])
    ensures Parse(Appended(texts)) == Joined<string>(lists)
    decreases |texts|
  {
    hide ParseArg;
    if texts != [] {
      var rest := Appended(texts[1..]);
      AppendedDelivers(texts[1..], lists[1..]);
      ConcatTail([' '], texts[0] + rest);
      ConcatEmpty(texts[0] + rest);
      assert Delivers(texts[0], lists[0]);
    }
  }

  lemma JoinDelivers(texts: seq<string>, lists: seq<seq<string>>)
    requires |texts| == |lists| && forall i :: 0 <= i < |texts| ==> Delivers(texts[i], lists[i])
    ensures Parse(Join(texts)) == Joined<string>(lists)
  {
    hide ParseArg;
    if texts != [] {
      AppendedDelivers(texts[1..], lists[1..]);
      assert Delivers(texts[0], lists[0]);
    }
  }

  /** What a reader finds where arg was written. */
  function Delivered(arg: string, placeholders: bool): (list: seq<string>)
  {
    if NeedsQuotes(arg, placeholders) then [arg] else Parse(arg)
  }

  lemma QuoteDelivers(arg: string, placeholders: bool)
    ensures Delivers(Quote(arg, placeholders), Delivered(arg, placeholders))
  {
    hide Parse, Quote, Delivered;
    forall rest | Ends(rest)
      ensures Parse(Quote(arg, placeholders) + rest) == Delivered(arg, placeholders) + Parse(rest)
    {
      QuoteParses(arg, placeholders, rest);
    }
  }

  lemma QuoteParses(arg: string, placeholders: bool, rest: string)
    requires Ends(rest)
    ensures Parse(Quote(arg, placeholders) + rest) == Delivered(arg, placeholders) + Parse(rest)
  {
    hide Parse, ParseArg, QuoteBody;
    if NeedsQuotes(arg, placeholders) {
      QuotedDelivers("", arg, rest);
      ConcatEmpty(Quote(arg, placeholders));
      ConcatEmpty(arg);
    } else {
      UnquotedIsBare(arg, placeholders);
      BareDelivers(arg, rest);
    }
  }

  lemma UnquotedIsBare(arg: string, placeholders: bool)
    requires !NeedsQuotes(arg, placeholders)
    ensures Bare(arg)
  {
    forall i | 0 <= i < |arg|
      ensures arg[i] != ' ' && arg[i] != QUOTE
    {
      assert !Quotable(arg[i], placeholders);
    }
  }

  /** Has a character that is not a tab, as everything a reader finds has. */
  predicate Spoken(x: string) { exists i :: 0 <= i < |x| && x[i] != '\t' }

  /** How what was read relates to what was written, when it is not the same. */
  predicate Fits(arg: string, list: seq<string>)
  {
    && (forall x :: x in list ==> Spoken(x))
    && (list == [arg] || (list == [] && !Spoken(arg)) || (list != [] && list[0] != arg))
  }

  lemma {:induction false} JoinedSpoken(lists: seq<seq<string>>)
    requires forall i :: 0 <= i < |lists| ==> forall x :: x in lists[i] ==> Spoken(x)
    ensures forall x :: x in Joined<string>(lists) ==> Spoken(x)
    decreases |lists|
  {
    if lists != [] {
      JoinedSpoken(lists[1..]);
      assert forall x :: x in lists[0] ==> Spoken(x);
    }
  }

  /** Lists that fit add up to the arguments only if each of them is its own argument. */
  lemma {:induction false} JoinedExact(args: seq<string>, lists: seq<seq<string>>)
    requires |args| == |lists| && forall i :: 0 <= i < |args| ==> Fits(args[i], lists[i])
    ensures Joined<string>(lists) == args <==> forall i :: 0 <= i < |args| ==> lists[i] == [args[i]]
    decreases |args|
  {
    if args != [] {
      hide Spoken;
      var rest := Joined<string>(lists[1..]);
      JoinedExact(args[1..], lists[1..]);
      assert Fits(args[0], lists[0]);
      if lists[0] == [args[0]] {
        assert ([args[0]] + rest)[1..] == rest;
        assert args == [args[0]] + args[1..];
        assert lists == [lists[0]] + lists[1..];
      } else if lists[0] == [] {
        JoinedSpoken(lists);
        assert args[0] in args && args[0] !in Joined<string>(lists);
      } else {
        assert (lists[0] + rest)[0] == lists[0][0];
      }
    }
  }

  /** Whether an argument reads back as itself: the others are written without quotes. */
  predicate Survives(arg: string, placeholders: bool)
  {
    NeedsQuotes(arg, placeholders) || (arg != "" && TabFree(arg))
  }

  lemma BareFits(a: string)
    requires Bare(a)
    ensures Fits(a, Parse(a)) && (Parse(a) == [a] <==> a != "" && TabFree(a))
  {
    hide ParseArg;
    BarePieces(a);
    forall x | x in Parse(a)
      ensures Spoken(x)
    {
      assert x[0] != '\t';
    }
    if Parse(a) == [] {
      BareNothing(a);
    }
    assert Parse(a) != [] ==> Parse(a)[0] in Parse(a);
  }

  lemma {:induction false} BareNothing(a: string)
    requires Bare(a) && Parse(a) == []
    ensures !Spoken(a)
    decreases |a|
  {
    if a != "" {
      BareNothing(a[1..]);
      assert forall i :: 0 < i < |a| ==> a[i] == a[1..][i - 1];
    }
  }

  lemma DeliveredFits(arg: string, placeholders: bool)
    ensures Fits(arg, Delivered(arg, placeholders))
    ensures Delivered(arg, placeholders) == [arg] <==> Survives(arg, placeholders)
  {
    hide Parse;
    if NeedsQuotes(arg, placeholders) {
      var i :| 0 <= i < |arg| && Quotable(arg[i], placeholders);
      assert arg[i] != '\t';
    } else {
      UnquotedIsBare(arg, placeholders);
      BareFits(arg);
    }
  }

  function QuoteAll(args: seq<string>, placeholders: bool): (texts: seq<string>)
    ensures |texts| == |args|
    ensures forall i :: 0 <= i < |args| ==> texts[i] == Quote(args[i], placeholders)
  {
    seq(|args|, i requires 0 <= i < |args| => Quote(args[i], placeholders))
  }

  /** A joined line of quoted arguments reads back as the arguments exactly when each survives. */
  lemma QuotedLineRoundTrips(args: seq<string>, placeholders: bool)
    ensures Parse(Join(QuoteAll(args, placeholders))) == args
       <==> forall i :: 0 <= i < |args| ==> Survives(args[i], placeholders)
  {
    hide Quote, Parse, Join, Survives, Delivered, Fits, Joined;
    var lists := seq(|args|, i requires 0 <= i < |args| => Delivered(args[i], placeholders));
    forall i | 0 <= i < |args|
      ensures Delivers(QuoteAll(args, placeholders)[i], lists[i]) && Fits(args[i], lists[i])
      ensures lists[i] == [args[i]] <==> Survives(args[i], placeholders)
    {
      QuoteDelivers(args[i], placeholders);
      DeliveredFits(args[i], placeholders);
    }
    JoinDelivers(QuoteAll(args, placeholders), lists);
    JoinedExact(args, lists);
  }

  /** An empty argument is written as nothing, and is lost. */
  lemma EmptyArgumentIsLost(placeholders: bool)
    ensures Parse(Join(QuoteAll([""], placeholders))) == []
  {
  }
}
