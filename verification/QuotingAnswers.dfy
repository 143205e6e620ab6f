/**
 When and how the quoter of command_line.cc quotes, stated in characters, with the answers that
 command_line_unittest.cc asks for.
 */
module QuotingAnswers {
  import opened ArgvQuoting
  import opened Sequences

  // ---------------------------------------------------------------- when it quotes

  /** A space, a backslash or a double quote; a percent sign if placeholders are quoted. */
  predicate NeedsCare(c: char, placeholders: bool)
  {
    c as int == 0x20 || c as int == 0x5C || c as int == 0x22 || (placeholders && c as int == 0x25)
  }

  /** An argument stays as it is exactly if no character of it needs quotes. */
  lemma StaysExactly(arg: string, placeholders: bool)
    ensures Quote(arg, placeholders) == arg <==> forall c :: c in arg ==> !NeedsCare(c, placeholders)
  {
    BodyNoShorter(arg);
    if c :| c in arg && NeedsCare(c, placeholders) {
      var i :| 0 <= i < |arg| && arg[i] == c;
      assert Quotable(arg[i], placeholders);
    }
    if NeedsQuotes(arg, placeholders) {
      var i :| 0 <= i < |arg| && Quotable(arg[i], placeholders);
      assert arg[i] in arg && NeedsCare(arg[i], placeholders);
      assert |Quote(arg, placeholders)| == |QuoteBody(arg)| + 2;
    }
  }

  lemma {:induction false} BodyNoShorter(a: string)
    ensures |QuoteBody(a)| >= |a|
    decreases |a|
  {
    var n := Run(a);
    BodyForm(a);
    if n < |a| {
      hide QuoteBody;
      BodyNoShorter(a[n + 1..]);
    }
  }

  /** Otherwise it starts and ends with a double quote. */
  lemma QuotesAround(arg: string, placeholders: bool)
    requires exists c :: c in arg && NeedsCare(c, placeholders)
    ensures Quote(arg, placeholders) == "\"" + QuoteBody(arg) + "\""
  {
    hide QuoteBody;
    var c :| c in arg && NeedsCare(c, placeholders);
    var i :| 0 <= i < |arg| && arg[i] == c;
    assert Quotable(arg[i], placeholders);
  }

  // ---------------------------------------------------------------- what is between the quotes

  /** Neither a backslash nor a double quote. */
  predicate Ordinary(a: string) { forall i :: 0 <= i < |a| ==> a[i] as int != 0x5C && a[i] as int != 0x22 }

  /** Ordinary text is kept. */
  lemma {:induction false} BodyOrdinary(a: string, rest: string)
    requires Ordinary(a)
    ensures QuoteBody(a + rest) == a + QuoteBody(rest)
    decreases |a|
  {
    hide QuoteBody;
    if a == "" {
      ConcatEmpty(rest);
      ConcatEmpty(QuoteBody(rest));
    } else {
      BodyCharacter(a + rest, 0);
      assert (a + rest)[0..] == a + rest && (a + rest)[1..] == a[1..] + rest;
      BodyOrdinary(a[1..], rest);
      assert [a[0]] + (a[1..] + QuoteBody(rest)) == a + QuoteBody(rest);
    }
  }

  /** A double quote is escaped. */
  lemma BodyQuote(rest: string)
    ensures QuoteBody("\"" + rest) == "\\\"" + QuoteBody(rest)
  {
    hide QuoteBody;
    BodyCharacter("\"" + rest, 0);
    assert ("\"" + rest)[0..] == "\"" + rest && ("\"" + rest)[1..] == rest;
  }

  /** Backslashes are kept in front of ordinary text, and doubled in front of a double quote and at the end. */
  lemma BodyBackslashes(n: nat, c: char, rest: string)
    requires n > 0 && c as int != 0x5C
    ensures QuoteBody(Backslashes(n) + ([c] + rest))
         == Backslashes(if c as int == 0x22 then 2 * n else n) + QuoteBody([c] + rest)
    ensures QuoteBody(Backslashes(n)) == Backslashes(2 * n)
    ensures Backslashes(n)[0] as int == 0x5C && |Backslashes(n)| == n
  {
    hide QuoteBody;
    var s := Backslashes(n) + ([c] + rest);
    BodyRun(s, 0, n);
    assert s[0..] == s && s[n..] == [c] + rest;
    BodyRun(Backslashes(n), 0, n);
    BodyOfNothing(Backslashes(n));
    assert Backslashes(n)[0..] == Backslashes(n);
    ConcatEmpty(Backslashes(2 * n));
  }

  /** So text without a double quote stays as it is, if it does not end in a backslash. */
  lemma {:induction false} BodyKept(a: string)
    requires (forall i :: 0 <= i < |a| ==> a[i] as int != 0x22) && (a != "" ==> a[|a| - 1] as int != 0x5C)
    ensures QuoteBody(a) == a
    decreases |a|
  {
    hide QuoteBody, Run, Backslashes;
    var n := Run(a);
    assert n > 0 ==> a[n - 1] as int == 0x5C;
    BodyForm(a);
    if n < |a| {
      BodyKept(a[n + 1..]);
      assert a == a[..n] + ([a[n]] + a[n + 1..]);
    }
  }

  // ---------------------------------------------------------------- the tricky argument of the tests

  /** q"bs1\bs2\\bs3q\" and how it is written in a command line: q\"bs1\bs2\\bs3q\\\" */
  const TRICKY := "q" + ("\"" + ("bs1" + ("\\" + ("bs2" + ("\\\\" + ("bs3q" + ("\\" + "\"")))))))

  const TRICKY_QUOTED := "q" + ("\\\"" + ("bs1" + ("\\" + ("bs2" + ("\\\\" + ("bs3q" + ("\\\\" + "\\\"")))))))

  lemma BackslashesAre()
    ensures Backslashes(1) == "\\" && Backslashes(2) == "\\\\"
  {
  }

  lemma TrickyEnd()
    ensures QuoteBody("\\" + "\"") == "\\\\" + "\\\""
  {
    hide QuoteBody;
    BackslashesAre();
    assert "\"" + "" == "\"" && "\\\"" + "" == "\\\"";
    BodyBackslashes(1, '\"', "");
    BodyQuote("");
    BodyOfNothing("");
  }

  lemma TrickyMiddle(end: string)
    ensures QuoteBody("bs1" + ("\\" + ("bs2" + ("\\\\" + ("bs3q" + end)))))
         == "bs1" + ("\\" + ("bs2" + ("\\\\" + ("bs3q" + QuoteBody(end)))))
  {
    hide QuoteBody;
    BackslashesAre();
    BodyOrdinary("bs3q", end);
    assert "bs3q" + end == ['b'] + ("s3q" + end);
    BodyBackslashes(2, 'b', "s3q" + end);
    var tail := "\\\\" + ("bs3q" + end);
    BodyOrdinary("bs2", tail);
    assert "bs2" + tail == ['b'] + ("s2" + tail);
    BodyBackslashes(1, 'b', "s2" + tail);
    BodyOrdinary("bs1", "\\" + ("bs2" + tail));
  }

  /** What AppendSwitches of the tests expects. */
  lemma TrickyIsQuoted()
    ensures Quote(TRICKY, false) == "\"" + TRICKY_QUOTED + "\""
  {
    hide QuoteBody;
    TrickyEnd();
    TrickyMiddle("\\" + "\"");
    var rest := "bs1" + ("\\" + ("bs2" + ("\\\\" + ("bs3q" + ("\\" + "\"")))));
    BodyQuote(rest);
    BodyOrdinary("q", "\"" + rest);
    assert TRICKY[1] == '\"' && TRICKY[1] in TRICKY;
    QuotesAround(TRICKY, false);
  }

  // ---------------------------------------------------------------- reading it

  /** Ordinary text without blanks is read as it is, inside quotes and outside. */
  lemma {:induction false} TextParses(a: string, t: string, quoted: bool, arg: string)
    requires Ordinary(a) && forall i :: 0 <= i < |a| ==> a[i] as int != 0x20 && a[i] as int != 0x09
    ensures ParseArg(a + t, quoted, arg) == ParseArg(t, quoted, arg + a)
    decreases |a|
  {
    hide ParseArg;
    if a == "" {
      ConcatEmpty(t);
      ConcatEmpty(arg);
    } else {
      assert a + t == [a[0]] + (a[1..] + t);
      StepChar(a[0], a[1..] + t, quoted, arg);
      TextParses(a[1..], t, quoted, arg + [a[0]]);
      assert arg + [a[0]] + a[1..] == arg + a;
    }
  }

  lemma TrickyMiddleParses(end: string, arg: string)
    ensures ParseArg("bs1" + ("\\" + ("bs2" + ("\\\\" + ("bs3q" + end)))), false, arg)
         == ParseArg(end, false, arg + "bs1" + "\\" + "bs2" + "\\\\" + "bs3q")
  {
    hide ParseArg;
    BackslashesAre();
    var t3 := "bs3q" + end;
    var t2 := "bs2" + ("\\\\" + t3);
    TextParses("bs1", "\\" + t2, false, arg);
    StepRun(1, t2, false, arg + "bs1");
    TextParses("bs2", "\\\\" + t3, false, arg + "bs1" + "\\");
    StepRun(2, t3, false, arg + "bs1" + "\\" + "bs2");
    TextParses("bs3q", end, false, arg + "bs1" + "\\" + "bs2" + "\\\\");
  }

  lemma TrickyEndParses(arg: string)
    ensures ParseArg("\\\\" + "\\\"", false, arg) == (arg + "\\" + "\"", "")
  {
    var three := Backslashes(3) + ("\"" + "");
    assert "\\\\" + "\\\"" == three;
    StepOdd(1, "", false, arg);
    BackslashesAre();
    RunFound("", 0);
    hide Run;
  }

  /** As the tests write it in a command line, it is read as what the tests say. */
  lemma TrickyIsRead()
    ensures Parse(TRICKY_QUOTED) == [TRICKY]
  {
    hide ParseArg;
    BackslashesAre();
    var end := "\\\\" + "\\\"";
    var rest := "bs1" + ("\\" + ("bs2" + ("\\\\" + ("bs3q" + end))));
    TextParses("q", "\\\"" + rest, false, "");
    assert "\\\"" + rest == Backslashes(1) + ("\"" + rest);
    StepOdd(0, rest, false, "" + "q");
    var arg := "" + "q" + Backslashes(0) + "\"";
    TrickyMiddleParses(end, arg);
    TrickyEndParses(arg + "bs1" + "\\" + "bs2" + "\\\\" + "bs3q");
    assert TRICKY_QUOTED[0] == 'q';
    assert arg + "bs1" + "\\" + "bs2" + "\\\\" + "bs3q" + "\\" + "\"" == TRICKY;
  }
}
