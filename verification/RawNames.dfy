/**
 Names of switches, which GetArgumentsString writes as they are: one that has a blank or a quote is
 never read back, whatever follows it on the line.
 */
module RawNames {
  import opened ArgvQuoting
  import opened Sequences

  /** What has been read of an argument stays in front of it. */
  lemma {:induction false} ArgGrows(s: string, quoted: bool, arg: string)
    ensures arg <= ParseArg(s, quoted, arg).0
    decreases |s|
  {
    var n := Run(s);
    if n > 0 {
      if n == |s| || s[n] != QUOTE {
        ArgGrows(s[n..], quoted, arg + Backslashes(n));
      } else if n % 2 == 0 {
        ArgGrows(s[n..], quoted, arg + Backslashes(n / 2));
      } else {
        ArgGrows(s[n + 1..], quoted, arg + Backslashes(n / 2) + [QUOTE]);
      }
    } else if s == "" || (IsBlank(s[0]) && !quoted) {
    } else if s[0] != QUOTE {
      ArgGrows(s[1..], quoted, arg + [s[0]]);
    } else if quoted && |s| > 1 && s[1] == QUOTE {
      ArgGrows(s[2..], quoted, arg + [QUOTE]);
    } else {
      ArgGrows(s[1..], !quoted, arg);
    }
  }

  /** Made of the characters that ParseArg does not just copy. */
  predicate Marks(s: string) { forall i :: 0 <= i < |s| ==> s[i] == QUOTE || s[i] == BACKSLASH }

  /** Free of what the reader stops or changes at. */
  predicate Plain(name: string) { forall i :: 0 <= i < |name| ==> !IsBlank(name[i]) && name[i] != QUOTE }

  /** How what follows a name starts. */
  predicate Stops(rest: string) { rest == "" || rest[0] == '=' || IsBlank(rest[0]) }

  /** What one step of ParseArg adds to the argument, how far it goes, and whether it changes state. */
  datatype Move = Move(out: string, taken: nat, toggles: bool)

  /** The step, if there is one before the argument ends. */
  function Moved(s: string, quoted: bool): (m: Move)
    requires s != ""
    ensures 0 < m.taken <= |s|
  {
    var n := Run(s);
    if n > 0 then
      if n == |s| || s[n] != QUOTE then Move(Backslashes(n), n, false)
      else if n % 2 == 0 then Move(Backslashes(n / 2), n, false)
      else Move(Backslashes(n / 2) + [QUOTE], n + 1, false)
    else if s[0] != QUOTE then Move([s[0]], 1, false)
    else if quoted && |s| > 1 && s[1] == QUOTE then Move([QUOTE], 2, false)
    else Move("", 1, true)
  }

  lemma MoveParses(s: string, quoted: bool, arg: string)
    requires s != "" && !(IsBlank(s[0]) && !quoted)
    ensures var m := Moved(s, quoted);
            ParseArg(s, quoted, arg) == ParseArg(s[m.taken..], quoted != m.toggles, arg + m.out)
  {
    var n := Run(s);
    if n == 0 {
      ConcatEmpty(arg);
    } else if n < |s| && s[n] == QUOTE && n % 2 == 1 {
      ConcatAssoc(arg, Backslashes(n / 2), [QUOTE]);
    }
  }

  /** A step within a name takes no more than the name, and what it takes of marks it may keep or drop. */
  lemma MoveStays(name: string, rest: string, quoted: bool)
    requires name != "" && Stops(rest)
    ensures var m := Moved(name + rest, quoted);
            && m.taken <= |name| && |m.out| <= m.taken
            && (name[0] == QUOTE || name[0] == BACKSLASH ==> Marks(name[..m.taken]))
            && (name[0] != QUOTE && name[0] != BACKSLASH ==> m.out == [name[0]] && m.taken == 1)
            && (|m.out| == m.taken && !IsBlank(name[0]) ==> Plain(name[..m.taken]) && !m.toggles)
  {
    var s := name + rest;
    var n := Run(s);
    assert forall i :: 0 <= i < |name| ==> s[i] == name[i];
    assert rest != "" ==> s[|name|] == rest[0];
    var m := Moved(s, quoted);
    assert forall i :: 0 <= i < m.taken <= |name| ==> name[..m.taken][i] == s[i];
  }

  /** If the argument is to become e, the next step has to add what e has there. */
  lemma MoveFits(s: string, quoted: bool, e: string, i: nat)
    requires s != "" && !(IsBlank(s[0]) && !quoted) && i <= |e| && ParseArg(s, quoted, e[..i]).0 == e
    ensures var m := Moved(s, quoted);
            && i + |m.out| <= |e| && e[i..i + |m.out|] == m.out && (m.out != "" ==> e[i] == m.out[0])
            && ParseArg(s[m.taken..], quoted != m.toggles, e[..i + |m.out|]).0 == e
  {
    hide ParseArg, Moved;
    var m := Moved(s, quoted);
    MoveParses(s, quoted, e[..i]);
    ArgGrows(s[m.taken..], quoted != m.toggles, e[..i] + m.out);
    assert (e[..i] + m.out)[i..] == m.out;
    assert m.out != "" ==> (e[..i] + m.out)[i] == m.out[0];
    assert e[..i] + m.out == e[..i + |m.out|];
  }

  lemma ArgStops(s: string, quoted: bool, arg: string)
    requires s == "" || (IsBlank(s[0]) && !quoted)
    ensures ParseArg(s, quoted, arg).0 == arg
  {
  }

  lemma StopCopied(rest: string, quoted: bool)
    requires rest != "" && Stops(rest)
    ensures Moved(rest, quoted).out == [rest[0]] && rest[0] != QUOTE && rest[0] != BACKSLASH
  {
  }

  lemma MarksMove(e: string, i: nat, j: nat, i': nat, j': nat)
    requires i <= i' <= j' && i <= j <= j' <= |e| && Marks(e[i..j]) && Marks(e[j..j'])
    ensures Marks(e[i'..j'])
  {
    forall k | 0 <= k < j' - i'
      ensures e[i'..j'][k] == QUOTE || e[i'..j'][k] == BACKSLASH
    {
      if i' + k < j {
        assert e[i'..j'][k] == e[i..j][i' + k - i];
      } else {
        assert e[i'..j'][k] == e[j..j'][i' + k - j];
      }
    }
  }

  /**
   A reader that has got less out of the name than it has read, with only marks in between, does not
   make it up: it gets no more than it reads, and the end of the name is no mark.
   */
  lemma {:induction false} Lagging(e: string, n: nat, i: nat, j: nat, rest: string, quoted: bool)
    requires i < j <= n <= |e| && Marks(e[i..j]) && Stops(rest)
    ensures ParseArg(e[j..n] + rest, quoted, e[..i]).0 != e
    decreases n - j
  {
    hide ParseArg, Moved;
    var name := e[j..n];
    var s := name + rest;
    assert e[i..j][0] == e[i];
    if ParseArg(s, quoted, e[..i]).0 == e {
      if s == "" || (IsBlank(s[0]) && !quoted) {
        ArgStops(s, quoted, e[..i]);
      } else {
        MoveFits(s, quoted, e, i);
        var m := Moved(s, quoted);
        if name == "" {
          assert s == rest;
          StopCopied(s, quoted);
        } else {
          MoveStays(name, rest, quoted);
          if name[0] == QUOTE || name[0] == BACKSLASH {
            assert name[..m.taken] == e[j..j + m.taken];
            MarksMove(e, i, j, i + |m.out|, j + m.taken);
            assert s[m.taken..] == e[j + m.taken..n] + rest;
            Lagging(e, n, i + |m.out|, j + m.taken, rest, quoted != m.toggles);
          }
        }
      }
    }
  }

  /** An argument whose first n characters are written as they are, with a blank or a quote among them. */
  lemma {:induction false} RawIsLost(e: string, n: nat, j: nat, rest: string)
    requires j <= n <= |e| && !Plain(e[j..n]) && Stops(rest)
    ensures ParseArg(e[j..n] + rest, false, e[..j]).0 != e
    decreases n - j
  {
    hide ParseArg, Moved;
    var name := e[j..n];
    var s := name + rest;
    if ParseArg(s, false, e[..j]).0 == e {
      if IsBlank(s[0]) {
        ArgStops(s, false, e[..j]);
      } else {
        MoveFits(s, false, e, j);
        MoveStays(name, rest, false);
        var m := Moved(s, false);
        assert s[m.taken..] == e[j + m.taken..n] + rest;
        if |m.out| == m.taken {
          assert name == name[..m.taken] + e[j + m.taken..n];
          RawIsLost(e, n, j + m.taken, rest);
        } else {
          assert name[..m.taken] == e[j..j + m.taken];
          MarksMove(e, j, j, j + |m.out|, j + m.taken);
          Lagging(e, n, j + |m.out|, j + m.taken, rest, m.toggles);
        }
      }
    }
  }
}
