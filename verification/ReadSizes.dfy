/**
 How much CommandLineToArgvW can get out of a line: whether it is inside quotes or not, a character
 read gives at most one, and what the quoter writes gives back at most what it was written for.
 */
module ReadSizes {
  import opened ArgvQuoting
  import opened RawNames
  import opened Sequences

  /** Every element counts with its characters, and one for the blank that parts it from the next. */
  function Size(list: seq<string>): (n: nat)
  {
    if list == [] then 0 else |list[0]| + 1 + Size(list[1..])
  }

  /** The most characters that can be read out of s. */
  function Yield(s: string): (n: nat)
  {
    if s == "" then 0 else |Moved(s, true).out| + Yield(s[Moved(s, true).taken..])
  }

  lemma {:induction false} SizeConcat(a: seq<string>, b: seq<string>)
    ensures Size(a + b) == Size(a) + Size(b)
  {
    if a == [] {
      ConcatEmpty(b);
    } else {
      ConcatTail(a, b);
      SizeConcat(a[1..], b);
    }
  }

  /** A quote may be left out: outside of quotes it is not paired with the next. */
  lemma {:induction false} YieldQuote(s: string)
    requires s != "" && s[0] == QUOTE
    ensures Yield(s[1..]) <= Yield(s)
  {
    if |s| > 1 && s[1] == QUOTE {
      assert s[1..][1..] == s[2..];
      assert Moved(s, true) == Move([QUOTE], 2, false);
      if |s| > 2 && s[2] == QUOTE {
        assert s[1..][2..] == s[2..][1..];
        assert Moved(s[1..], true) == Move([QUOTE], 2, false);
        YieldQuote(s[2..]);
      } else {
        assert Moved(s[1..], true) == Move("", 1, true);
      }
    } else {
      assert Moved(s, true) == Move("", 1, true);
    }
  }

  lemma MoveYields(s: string, quoted: bool)
    requires s != ""
    ensures var m := Moved(s, quoted); |m.out| + Yield(s[m.taken..]) <= Yield(s)
  {
    if s[0] == QUOTE && !quoted {
      YieldQuote(s);
    }
  }

  lemma {:induction false} ArgYields(s: string, quoted: bool, arg: string)
    ensures var (a, rest) := ParseArg(s, quoted, arg); |a| + Yield(rest) <= |arg| + Yield(s)
    ensures var (a, rest) := ParseArg(s, quoted, arg); |rest| <= |s| && (rest == "" || IsBlank(rest[0]))
    decreases |s|
  {
    if s != "" && !(IsBlank(s[0]) && !quoted) {
      hide ParseArg;
      var m := Moved(s, quoted);
      MoveParses(s, quoted, arg);
      MoveYields(s, quoted);
      hide Moved, Yield;
      ArgYields(s[m.taken..], quoted != m.toggles, arg + m.out);
    }
  }

  /** What is found in s is no larger than that; one less if s starts where one argument ends. */
  lemma {:induction false} ParseYields(s: string)
    ensures Size(Parse(s)) <= Yield(s) + 1
    ensures s == "" || IsBlank(s[0]) ==> Size(Parse(s)) <= Yield(s)
    decreases |s|
  {
    if s != "" {
      if IsBlank(s[0]) {
        assert Moved(s, true) == Move([s[0]], 1, false);
        ParseYields(s[1..]);
      } else {
        hide ParseArg, Moved, Yield;
        var (arg, rest) := ParseArg(s, false, "");
        ArgYields(s, false, "");
        StartConsumes(s);
        ParseYields(rest);
        assert ([arg] + Parse(rest))[1..] == Parse(rest);
      }
    }
  }

  // ---------------------------------------------------------------- what is written

  /** Not a quote or a backslash, so that what is in front of it is read without it. */
  predicate Open(rest: string) { rest == "" || (rest[0] != QUOTE && rest[0] != BACKSLASH) }

  lemma MoveAlone(a: string, rest: string)
    requires a != "" && Open(rest)
    ensures Moved(a + rest, true) == Moved(a, true)
  {
    var n := Run(a);
    RunFound(a + rest, n);
    assert forall i :: 0 <= i < |a| ==> (a + rest)[i] == a[i];
    assert rest != "" ==> (a + rest)[|a|] == rest[0];
  }

  lemma {:induction false} YieldConcat(a: string, rest: string)
    requires Open(rest)
    ensures Yield(a + rest) == Yield(a) + Yield(rest)
    decreases |a|
  {
    if a == "" {
      ConcatEmpty(rest);
    } else {
      MoveAlone(a, rest);
      var m := Moved(a, true);
      hide Moved;
      assert (a + rest)[m.taken..] == a[m.taken..] + rest;
      YieldConcat(a[m.taken..], rest);
    }
  }

  lemma MoveShrinks(s: string)
    requires s != ""
    ensures var m := Moved(s, true); |m.out| <= m.taken && (QUOTE in s[..m.taken] ==> |m.out| < m.taken)
  {
  }

  /** A text written as it is yields at most its length, and less if it has a quote. */
  lemma {:induction false} YieldRaw(s: string)
    ensures Yield(s) <= |s| && (QUOTE in s ==> Yield(s) < |s|)
  {
    if s != "" {
      MoveShrinks(s);
      var m := Moved(s, true);
      hide Moved;
      assert s == s[..m.taken] + s[m.taken..];
      YieldRaw(s[m.taken..]);
    }
  }

  lemma YieldMove(s: string, m: Move)
    requires s != "" && Moved(s, true) == m
    ensures Yield(s) == |m.out| + Yield(s[m.taken..])
  {
  }

  lemma YieldClose(n: nat)
    requires n > 0
    ensures Yield(Backslashes(2 * n) + [QUOTE]) == n
  {
    var s := Backslashes(2 * n) + [QUOTE];
    RunFound(s, 2 * n);
    YieldMove(s, Move(Backslashes(n), 2 * n, false));
    assert s[2 * n..] == [QUOTE];
    YieldMove([QUOTE], Move("", 1, true));
  }

  lemma YieldEscaped(n: nat, rest: string)
    ensures Yield(Backslashes(2 * n + 1) + ([QUOTE] + rest)) == n + 1 + Yield(rest)
  {
    var s := Backslashes(2 * n + 1) + ([QUOTE] + rest);
    RunFound(s, 2 * n + 1);
    YieldMove(s, Move(Backslashes(n) + [QUOTE], 2 * n + 2, false));
    assert s[2 * n + 2..] == rest;
  }

  lemma YieldRun(n: nat, rest: string)
    requires n > 0 && rest != "" && rest[0] != QUOTE && rest[0] != BACKSLASH
    ensures Yield(Backslashes(n) + rest) == n + Yield(rest)
  {
    var s := Backslashes(n) + rest;
    RunFound(s, n);
    YieldMove(s, Move(Backslashes(n), n, false));
    assert s[n..] == rest;
  }

  lemma BodyAssoc(n: nat, body: string)
    ensures Backslashes(2 * n) + ([BACKSLASH, QUOTE] + body) + [QUOTE]
         == Backslashes(2 * n + 1) + ([QUOTE] + (body + [QUOTE]))
  {
  }

  lemma BodyOfRun(a: string, n: nat)
    requires n == Run(a) > 0
    ensures n == |a| ==> QuoteBody(a) == Backslashes(2 * n)
    ensures n < |a| && a[n] == QUOTE ==>
              QuoteBody(a) == Backslashes(2 * n) + ([BACKSLASH, QUOTE] + QuoteBody(a[n + 1..]))
    ensures n < |a| && a[n] != QUOTE ==>
              QuoteBody(a) == Backslashes(n) + QuoteBody(a[n..]) && QuoteBody(a[n..]) != "" && QuoteBody(a[n..])[0] == a[n]
    ensures QuoteBody(a)[0] == BACKSLASH
  {
    RunFound(a[n..], 0);
    if n < |a| {
      assert a[n..][1..] == a[n + 1..];
    } else {
      assert a[n..] == "";
    }
  }

  lemma BodyOfChar(a: string)
    requires a != "" && Run(a) == 0
    ensures QuoteBody(a) == (if a[0] == QUOTE then [BACKSLASH, QUOTE] else [a[0]]) + QuoteBody(a[1..])
  {
  }

  lemma YieldChar(c: char, rest: string)
    requires c != BACKSLASH
    ensures Yield((if c == QUOTE then [BACKSLASH, QUOTE] else [c]) + rest) == 1 + Yield(rest)
  {
    if c == QUOTE {
      var s := [BACKSLASH, QUOTE] + rest;
      RunFound(s, 1);
      assert Backslashes(0) == "" && "" + [QUOTE] == [QUOTE];
      YieldMove(s, Move([QUOTE], 2, false));
      assert s[2..] == rest;
    } else {
      var s := [c] + rest;
      RunFound(s, 0);
      YieldMove(s, Move([c], 1, false));
      assert s[1..] == rest;
    }
  }

  /** What stands between the quotes, with the closing one, yields just the argument. */
  lemma {:induction false} YieldBody(a: string)
    ensures Yield(QuoteBody(a) + [QUOTE]) == |a|
    ensures a != "" ==> QuoteBody(a) != "" && QuoteBody(a)[0] != QUOTE
    decreases |a|
  {
    if a == "" {
      assert QuoteBody(a) + [QUOTE] == [QUOTE];
      YieldMove([QUOTE], Move("", 1, true));
    } else {
      hide QuoteBody, Yield, Run;
      var n := Run(a);
      if n == 0 {
        BodyOfChar(a);
        YieldBody(a[1..]);
        YieldChar(a[0], QuoteBody(a[1..]) + [QUOTE]);
        ConcatAssoc(if a[0] == QUOTE then [BACKSLASH, QUOTE] else [a[0]], QuoteBody(a[1..]), [QUOTE]);
      } else {
        BodyOfRun(a, n);
        if n == |a| {
          YieldClose(n);
        } else if a[n] == QUOTE {
          YieldBody(a[n + 1..]);
          YieldEscaped(n, QuoteBody(a[n + 1..]) + [QUOTE]);
          BodyAssoc(n, QuoteBody(a[n + 1..]));
        } else {
          YieldBody(a[n..]);
          YieldRun(n, QuoteBody(a[n..]) + [QUOTE]);
          ConcatAssoc(Backslashes(n), QuoteBody(a[n..]), [QUOTE]);
        }
      }
    }
  }

  /** A quoted argument, or one that is left without quotes, yields at most itself. */
  lemma YieldWritten(arg: string, placeholders: bool)
    ensures Yield(Quote(arg, placeholders)) <= |arg|
  {
    if NeedsQuotes(arg, placeholders) {
      YieldBody(arg);
      var s := [QUOTE] + (QuoteBody(arg) + [QUOTE]);
      hide QuoteBody, Yield;
      ConcatAssoc([QUOTE], QuoteBody(arg), [QUOTE]);
      assert s[1..] == QuoteBody(arg) + [QUOTE] && s[1] == QuoteBody(arg)[0];
      RunFound(s, 0);
      YieldMove(s, Move("", 1, true));
    } else {
      YieldRaw(arg);
    }
  }
}
