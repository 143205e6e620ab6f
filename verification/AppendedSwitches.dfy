/**
 What is read of a switch that AppendSwitchNative has stored, once InitFromArgv has trimmed it.
 */
module AppendedSwitches {
  import opened CommandLines
  import opened Sequences
  import opened Strings

  /** Not empty, and no whitespace at the end. */
  predicate Firm(os: Platform, s: string) { s != "" && !IsSpace(os, s[|s| - 1]) }

  predicate ReadsBack(os: Platform, item: Item, name: string, value: string)
  {
    item.Switch? && Key(os, item.name) == Key(os, name) && item.value == value
  }

  /** The prefix of what is stored: that of the name, or the one that is added. */
  function Head(os: Platform, name: string): (head: string)
  {
    var lower := Lower(os, name);
    if PrefixLength(os, lower) == 0 then "--" else lower[..PrefixLength(os, lower)]
  }

  /** The key and the value behind it. */
  function Behind(os: Platform, name: string, value: string): (behind: string)
  {
    Key(os, name) + (if value == "" then "" else "=" + value)
  }

  lemma CombinedParts(os: Platform, name: string, value: string)
    ensures Combined(os, name, value) == Head(os, name) + Behind(os, name, value)
  {
    hide Lower;
    var lower := Lower(os, name);
    var rest := if value == "" then "" else "=" + value;
    var n := PrefixLength(os, lower);
    hide PrefixLength;
    assert lower == lower[..n] + lower[n..];
    ConcatAssoc(Head(os, name), lower[n..], rest);
    ConcatEmpty(lower);
  }

  lemma HeadMarks(os: Platform, name: string)
    ensures var head := Head(os, name);
            head != "" && forall i :: 0 <= i < |head| ==> head[i] == '-' || head[i] == '/'
  {
    hide LowerChar;
  }

  /** With any part of what is behind it, the prefix stays the prefix. */
  lemma HeadStays(os: Platform, name: string, value: string, part: string)
    requires part <= Behind(os, name, value)
    ensures PrefixLength(os, Head(os, name) + part) == |Head(os, name)|
  {
    hide Lower;
    assert part != "" ==> part[0] == Behind(os, name, value)[0];
  }

  lemma TrimBehind(os: Platform, head: string, behind: string)
    requires Firm(os, head) && !IsSpace(os, head[0])
    ensures Trim(os, head + behind) == head + TrimRight(os, behind)
  {
    TrimRightBehind(os, head, behind);
    assert TrimLeft(os, head + behind) == head + behind;
  }

  lemma {:induction false} TrimRightBehind(os: Platform, head: string, behind: string)
    requires Firm(os, head)
    ensures TrimRight(os, head + behind) == head + TrimRight(os, behind)
    decreases |behind|
  {
    hide IsSpace;
    if behind == "" {
      assert head + behind == head;
    } else {
      var front := behind[..|behind| - 1];
      assert (head + behind)[..|head + behind| - 1] == head + front;
      TrimRightBehind(os, head, front);
    }
  }

  lemma {:induction false} TrimKeeps(os: Platform, s: string, i: nat)
    requires i < |s| && !IsSpace(os, s[i])
    ensures |TrimRight(os, s)| > i
    decreases |s|
  {
    if IsSpace(os, s[|s| - 1]) {
      TrimKeeps(os, s[..|s| - 1], i);
    }
  }

  /** Trimming leaves all of it exactly if it does not end in whitespace, which the value decides, or the key. */
  lemma BehindFirm(os: Platform, name: string, value: string)
    ensures var behind := Behind(os, name, value);
            && (TrimRight(os, behind) == behind && behind != ""
                <==> Firm(os, if value == "" then Key(os, name) else value))
            && (TrimRight(os, behind) != "" <==> value != "" || TrimRight(os, Key(os, name)) != "")
            && (value != "" ==> |TrimRight(os, behind)| > |Key(os, name)|)
  {
    hide Key;
    if value != "" {
      assert Behind(os, name, value)[|Key(os, name)|] == '=';
      TrimKeeps(os, Behind(os, name, value), |Key(os, name)|);
    } else {
      assert Behind(os, name, value) == Key(os, name);
    }
  }

  /** The '=' at which the name that is read ends lies at most behind the key. */
  lemma NameEnds(os: Platform, name: string, value: string, part: string)
    requires part <= Behind(os, name, value)
    ensures var j, key := FindEquals(part), Key(os, name);
            && j <= |key| && part[..j] == key[..j]
            && (j == |key| <==> '=' !in name && |part| >= |key|)
  {
    hide FindEquals, Key;
    var behind, key, j := Behind(os, name, value), Key(os, name), FindEquals(part);
    EqualsInKey(os, name);
    if |key| < |part| {
      assert value != "" && behind[|key|] == '=' && part[|key|] == '=';
    }
    assert j <= |key|;
    assert part[..j] == behind[..j] == key[..j];
    if '=' in key && |part| >= |key| {
      var i :| 0 <= i < |key| && key[i] == '=';
      assert part[i] == behind[i] == '=';
    } else if j < |part| && j < |key| {
      assert key[j] == behind[j] == part[j];
    }
  }

  lemma EqualsInKey(os: Platform, name: string)
    ensures '=' in name <==> '=' in Key(os, name)
  {
    hide LowerChar;
    var lower := Lower(os, name);
    var n := PrefixLength(os, lower);
    if '=' in name {
      var i :| 0 <= i < |name| && name[i] == '=';
      assert lower[i] == '=' && i >= n && Key(os, name)[i - n] == '=';
    }
    if '=' in Key(os, name) {
      var i :| 0 <= i < |Key(os, name)| && Key(os, name)[i] == '=';
      assert lower[i + n] == '=' && name[i + n] == '=';
    }
  }

  lemma ConcatSlices(a: string, b: string, j: nat)
    requires j <= |b|
    ensures (a + b)[..|a| + j] == a + b[..j] && (a + b)[|a| + j..] == b[j..]
  {
  }

  lemma NameBehind(head: string, part: string)
    requires forall i :: 0 <= i < |head| ==> head[i] == '-' || head[i] == '/'
    ensures NameOf(head + part) == head + part[..FindEquals(part)]
    ensures ValueOf(head + part) == ValueOf(part)
  {
    hide FindEquals;
    var j := FindEquals(part);
    EqualsBehind(head, part);
    ConcatSlices(head, part, j);
    if j < |part| {
      ConcatSlices(head, part, j + 1);
    }
  }

  lemma EqualsBehind(head: string, part: string)
    requires forall i :: 0 <= i < |head| ==> head[i] == '-' || head[i] == '/'
    ensures FindEquals(head + part) == |head| + FindEquals(part)
  {
    hide FindEquals;
    var t, j := head + part, FindEquals(part);
    forall i | 0 <= i < |head| + j
      ensures t[i] != '='
    {
      assert i >= |head| ==> t[i] == part[i - |head|];
    }
    EqualsFound(t, |head| + j);
  }

  /** What the prefix and a part of what is behind it are read as. */
  lemma PartRead(os: Platform, name: string, value: string, part: string)
    requires part <= Behind(os, name, value)
    ensures var t := Head(os, name) + part;
            && ItemOf(os, t, t != TERMINATOR) == (if part != "" then Switch(NameOf(t), ValueOf(t)) else Arg(t))
            && Key(os, NameOf(t)) == part[..FindEquals(part)] && ValueOf(t) == ValueOf(part)
  {
    HeadStays(os, name, value, part);
    HeadMarks(os, name);
    NameEnds(os, name, value, part);
    NameBehind(Head(os, name), part);
    KeyOfPart(os, name, value, part[..FindEquals(part)]);
    hide Key, Head, NameOf, ValueOf, Behind, Combined, FindEquals;
    if Head(os, name) + part == TERMINATOR {
      assert PrefixLength(os, TERMINATOR) == 2;
    }
  }

  lemma KeyOfPart(os: Platform, name: string, value: string, part: string)
    requires part <= Key(os, name)
    ensures Key(os, Head(os, name) + part) == part
  {
    var head := Head(os, name);
    var s := head + part;
    assert part <= Behind(os, name, value);
    HeadStays(os, name, value, part);
    HeadMarks(os, name);
    LowerTwice(os, name);
    var lower := Lower(os, name);
    assert Lower(os, s) == s by {
      forall i | 0 <= i < |s|
        ensures Lower(os, s)[i] == s[i]
      {
        if i >= |head| {
          assert Lower(os, lower)[i - |head| + PrefixLength(os, lower)] == s[i];
        }
      }
    }
  }

  /**
   What InitFromArgv makes of a switch that was appended, with a prefix or without: a switch, unless
   it has no value and its key is only whitespace; and one with this key and value exactly when the
   name has no '=' and the value, or the key if there is no value, does not end in whitespace.
   */
  lemma AppendedReadsAsSwitch(os: Platform, name: string, value: string)
    ensures var items := Items(os, [Combined(os, name, value)], true);
            && |items| == 1
            && (items[0].Switch? <==> value != "" || TrimRight(os, Key(os, name)) != "")
            && (ReadsBack(os, items[0], name, value)
                <==> '=' !in name && Firm(os, if value == "" then Key(os, name) else value))
  {
    var part := TrimRight(os, Behind(os, name, value));
    StoredRead(os, name, value);
    PartRead(os, name, value, part);
    BehindFirm(os, name, value);
    ReadExactly(os, name, value, part);
    hide Items, ItemOf, Combined, Key, Head, Behind, NameOf, ValueOf, FindEquals, TrimRight, Firm;
  }

  /** The one item that a stored switch is read as. */
  lemma StoredRead(os: Platform, name: string, value: string)
    ensures var t := Head(os, name) + TrimRight(os, Behind(os, name, value));
            Items(os, [Combined(os, name, value)], true) == [ItemOf(os, t, t != TERMINATOR)]
  {
    var head, behind := Head(os, name), Behind(os, name, value);
    CombinedParts(os, name, value);
    HeadMarks(os, name);
    assert head[0] in "-/" && head[|head| - 1] in "-/";
    TrimBehind(os, head, behind);
    hide TrimRight, Trim, Head, Combined, Behind, ItemOf;
    var t := head + TrimRight(os, behind);
    assert [head + behind][1..] == [] && Items(os, [], t != TERMINATOR) == [];
  }

  /** Key and value are all there in a part exactly if it is everything, unless the key itself has a '='. */
  lemma ReadExactly(os: Platform, name: string, value: string, part: string)
    requires part <= Behind(os, name, value) && (value != "" ==> |part| > |Key(os, name)|)
    ensures part[..FindEquals(part)] == Key(os, name) && ValueOf(part) == value
       <==> '=' !in name && part == Behind(os, name, value)
  {
    NameEnds(os, name, value, part);
    hide Key, FindEquals;
    var key, behind, j := Key(os, name), Behind(os, name, value), FindEquals(part);
    if value == "" {
      assert behind == key;
    } else if j == |key| {
      assert behind == (key + "=") + value;
      PartOfValue(key, value, part);
    }
  }

  lemma PartOfValue(key: string, value: string, part: string)
    requires part <= (key + "=") + value && |part| > |key|
    ensures part[|key| + 1..] == value <==> part == (key + "=") + value
  {
    assert part[..|key| + 1] == key + "=";
    assert part == part[..|key| + 1] + part[|key| + 1..];
    assert ((key + "=") + value)[|key| + 1..] == value;
  }

  /** A value that ends in a blank loses it. */
  lemma BlankIsLost()
    ensures var items := Items(Posix, [Combined(Posix, "a", "v ")], true);
            |items| == 1 && !ReadsBack(Posix, items[0], "a", "v ")
  {
    AppendedReadsAsSwitch(Posix, "a", "v ");
  }

  /** A name that is a blank makes the terminator, an argument. */
  lemma BlankIsTerminator()
    ensures Items(Posix, [Combined(Posix, " ", "")], true) == [Arg(TERMINATOR)]
  {
    StoredRead(Posix, " ", "");
    assert Head(Posix, " ") == "--" && Behind(Posix, " ", "") == " ";
    assert TrimRight(Posix, " ") == "" && "--" + "" == "--";
  }
}
