/**
 environment.cc: both versions of AlterEnvironment. A list of lines `key=value` is read from memory
 and written to memory: a block of terminated lines, or an array of pointers to terminated lines.
 */
module Environments {
  import opened Optional
  import opened Sequences
  import opened Strings

  const NUL: char := '\0'
  const WORD := 8  // sizeof(char*)

  predicate NulFree(s: string) { NUL !in s }

  function KeyOf(line: string): string { line[..FindEquals(line)] }

  /** An entry of an EnvironmentMap, which lists them in the order of their keys. */
  datatype Change = Change(key: string, value: string)

  /** The order of std::string: by the first character that differs, then by length. */
  predicate Less(a: string, b: string)
  {
    b != "" && (a == "" || a[0] < b[0] || (a[0] == b[0] && Less(a[1..], b[1..])))
  }

  /** It is decided where two keys first differ; a key that the other goes on from is less. */
  lemma {:induction false} LessAt(a: string, b: string, i: nat)
    requires i <= |a| && i <= |b| && a[..i] == b[..i]
    ensures i == |a| ==> (Less(a, b) <==> i < |b|)
    ensures i == |b| ==> !Less(a, b)
    ensures i < |a| && i < |b| && a[i] != b[i] ==> (Less(a, b) <==> a[i] < b[i])
    decreases i
  {
    if i > 0 {
      assert a[0] == a[..i][0] == b[..i][0] == b[0];
      assert a[1..][..i - 1] == a[..i][1..] == b[..i][1..] == b[1..][..i - 1];
      LessAt(a[1..], b[1..], i - 1);
    }
  }

  ghost predicate IsMap(changes: seq<Change>)
  {
    forall i, j :: 0 <= i < j < |changes| ==> Less(changes[i].key, changes[j].key)
  }

  /** Keys and values that a line `key=value` keeps apart. */
  ghost predicate Writable(changes: seq<Change>)
  {
    forall c :: c in changes ==> NulFree(c.key) && '=' !in c.key && NulFree(c.value)
  }

  /** changes.find(key) */
  function Find(changes: seq<Change>, key: string): (value: Option<string>)
  {
    if changes == [] then None
    else if changes[0].key == key then Some(changes[0].value)
    else Find(changes[1..], key)
  }

  // ---------------------------------------------------------------- what the lines should be

  function Kept(lines: seq<string>, changes: seq<Change>): (kept: seq<string>)
  {
    if lines == [] then []
    else (if Find(changes, KeyOf(lines[0])) == None then [lines[0]] else []) + Kept(lines[1..], changes)
  }

  function LineOf(c: Change): string { c.key + ['='] + c.value }

  function Added(changes: seq<Change>): (added: seq<string>)
  {
    if changes == [] then []
    else (if changes[0].value != "" then [LineOf(changes[0])] else []) + Added(changes[1..])
  }

  /** The unmentioned lines in their order, then the nonempty changes in key order. */
  function Altered(lines: seq<string>, changes: seq<Change>): (altered: seq<string>)
  {
    Kept(lines, changes) + Added(changes)
  }

  // ---------------------------------------------------------------- how lines lie in memory

  function Stored(lines: seq<string>): (s: string)
  {
    if lines == [] then "" else (lines[0] + [NUL]) + Stored(lines[1..])
  }

  /** A Windows block: an empty one has two terminators as well. */
  function Block(lines: seq<string>): (s: string)
  {
    if lines == [] then [NUL, NUL] else Stored(lines) + [NUL]
  }

  predicate Lines(lines: seq<string>) { forall line :: line in lines ==> NulFree(line) }

  /** Those a block can hold: an empty line would end it. */
  predicate BlockLines(lines: seq<string>) { Lines(lines) && "" !in lines }

  function LineLength(s: string): (n: nat)
    ensures n <= |s| && (n < |s| ==> s[n] == NUL) && NulFree(s[..n])
  {
    if s == "" || s[0] == NUL then 0
    else
      assert s[..1 + LineLength(s[1..])] == [s[0]] + s[1..][..LineLength(s[1..])];
      1 + LineLength(s[1..])
  }

  /** How a reader takes a block apart: lines up to their terminators, until one is empty. */
  function ReadBlock(s: string): (lines: seq<string>)
    decreases |s|
  {
    var n := LineLength(s);
    if n == 0 then [] else [s[..n]] + ReadBlock(if n < |s| then s[n + 1..] else "")
  }

  lemma {:induction false} LineFound(line: string, rest: string)
    requires NulFree(line)
    ensures LineLength(line + ([NUL] + rest)) == |line|
  {
    if line == "" {
      assert line + ([NUL] + rest) == [NUL] + rest;
    } else {
      ConcatTail(line, [NUL] + rest);
      assert forall c :: c in line[1..] ==> c in line;
      LineFound(line[1..], rest);
    }
  }

  lemma ReadLine(line: string, rest: string)
    requires NulFree(line) && line != ""
    ensures ReadBlock((line + [NUL]) + rest) == [line] + ReadBlock(rest)
  {
    ConcatAssoc(line, [NUL], rest);
    var s := line + ([NUL] + rest);
    LineFound(line, rest);
    assert s[..|line|] == line && s[|line| + 1..] == rest;
  }

  /** Whatever follows it in memory, a block reads back as its lines. */
  lemma {:induction false} BlockReadsBack(lines: seq<string>, rest: string)
    requires BlockLines(lines)
    ensures ReadBlock(Stored(lines) + ([NUL] + rest)) == lines
    decreases |lines|
  {
    if lines == [] {
      assert Stored(lines) + ([NUL] + rest) == [NUL] + rest;
    } else {
      assert lines[0] in lines && forall x :: x in lines[1..] ==> x in lines;
      BlockReadsBack(lines[1..], rest);
      var tail := Stored(lines[1..]) + ([NUL] + rest);
      ConcatAssoc(lines[0] + [NUL], Stored(lines[1..]), [NUL] + rest);
      ReadLine(lines[0], tail);
    }
  }

  // ---------------------------------------------------------------- reading and writing

  /** s has line and its terminator at position at. */
  predicate LineAt(s: string, at: nat, line: string)
  {
    at + |line| < |s| && s[at..at + |line|] == line && s[at + |line|] == NUL && NulFree(line)
  }

  /** Reads the line that memory has at position at; its text is only part of the specification. */
  method ParseEnvLine(input: string, at: nat, ghost line: string) returns (key: string, length: nat)
    requires LineAt(input, at, line)
    ensures key == KeyOf(line) && length == |line| + 1
  {
    forall i | 0 <= i < |line|
      ensures input[at + i] == line[i] && line[i] != NUL
    {
      assert input[at..at + |line|][i] == line[i] && line[i] in line;
    }
    var cur := 0;
    while input[at + cur] != NUL && input[at + cur] != '='
      invariant cur <= |line| && forall i :: 0 <= i < cur ==> line[i] != '='
      decreases |line| - cur
    {
      cur := cur + 1;
    }
    key := input[at..at + cur];
    EqualsFound(line, cur);
    assert key == line[..cur];
    while input[at + cur] != NUL
      invariant cur <= |line|
      decreases |line| - cur
    {
      cur := cur + 1;
    }
    length := cur + 1;
  }

  lemma {:induction false} StoredConcat(a: seq<string>, b: seq<string>)
    ensures Stored(a + b) == Stored(a) + Stored(b)
  {
    if a == [] {
      ConcatEmpty(b);
      ConcatEmpty(Stored(b));
    } else {
      StoredConcat(a[1..], b);
      ConcatTail(a, b);
      ConcatAssoc(a[0] + [NUL], Stored(a[1..]), Stored(b));
    }
  }

  lemma StoredOne(line: string)
    ensures Stored([line]) == line + [NUL]
  {
    assert [line][1..] == [];
    ConcatEmpty(line + [NUL]);
  }

  lemma {:induction false} KeptConcat(a: seq<string>, b: seq<string>, changes: seq<Change>)
    ensures Kept(a + b, changes) == Kept(a, changes) + Kept(b, changes)
  {
    if a == [] {
      ConcatEmpty(b);
    } else {
      KeptConcat(a[1..], b, changes);
      ConcatTail(a, b);
      ConcatAssoc(if Find(changes, KeyOf(a[0])) == None then [a[0]] else [], Kept(a[1..], changes), Kept(b, changes));
    }
  }

  lemma KeptOne(line: string, changes: seq<Change>)
    ensures Kept([line], changes) == if Find(changes, KeyOf(line)) == None then [line] else []
  {
    assert [line][1..] == [];
  }

  lemma {:induction false} AddedConcat(a: seq<Change>, b: seq<Change>)
    ensures Added(a + b) == Added(a) + Added(b)
  {
    if a == [] {
      ConcatEmpty(b);
    } else {
      AddedConcat(a[1..], b);
      ConcatTail(a, b);
      ConcatAssoc(if a[0].value != "" then [LineOf(a[0])] else [], Added(a[1..]), Added(b));
    }
  }

  lemma AddedOne(c: Change)
    ensures Added([c]) == if c.value != "" then [LineOf(c)] else []
  {
    assert [c][1..] == [];
  }

  /** Where the lines after the first i lie in a block. */
  lemma StoredAt(lines: seq<string>, i: nat)
    requires i < |lines|
    ensures Stored(lines) == Stored(lines[..i]) + ((lines[i] + [NUL]) + Stored(lines[i + 1..]))
    ensures Stored(lines[..i + 1]) == Stored(lines[..i]) + (lines[i] + [NUL])
  {
    hide Stored;
    assert lines == lines[..i] + ([lines[i]] + lines[i + 1..]);
    assert lines[..i + 1] == lines[..i] + [lines[i]];
    StoredConcat(lines[..i], [lines[i]] + lines[i + 1..]);
    StoredConcat([lines[i]], lines[i + 1..]);
    StoredConcat(lines[..i], [lines[i]]);
    StoredOne(lines[i]);
  }

  /** The next line of a block is the one that memory has behind the lines before it. */
  lemma NextLine(env: string, lines: seq<string>, i: nat)
    requires i < |lines| && Lines(lines) && Stored(lines) <= env
    ensures LineAt(env, |Stored(lines[..i])|, lines[i])
    ensures |Stored(lines[..i + 1])| == |Stored(lines[..i])| + |lines[i]| + 1
  {
    hide Stored;
    StoredAt(lines, i);
    var at := |Stored(lines[..i])|;
    assert lines[i] in lines;
    assert env[at..at + |lines[i]|] == Stored(lines)[at..at + |lines[i]|] == lines[i];
    assert env[at + |lines[i]|] == Stored(lines)[at + |lines[i]|] == NUL;
  }

  /** What both versions do for a change: its line, if the value is not empty. */
  lemma NextAdded(changes: seq<Change>, i: nat)
    requires i < |changes|
    ensures Added(changes[..i + 1]) == Added(changes[..i]) + Added([changes[i]])
  {
    assert changes[..i + 1] == changes[..i] + [changes[i]];
    AddedConcat(changes[..i], [changes[i]]);
  }

  lemma NextKept(lines: seq<string>, changes: seq<Change>, i: nat)
    requires i < |lines|
    ensures Kept(lines[..i + 1], changes) == Kept(lines[..i], changes) + Kept([lines[i]], changes)
  {
    assert lines[..i + 1] == lines[..i] + [lines[i]];
    KeptConcat(lines[..i], [lines[i]], changes);
  }

  /** The Windows version: env is the memory from the block on, whose lines are given for the proof. */
  method AlterBlock(env: string, ghost lines: seq<string>, changes: seq<Change>) returns (result: string)
    requires BlockLines(lines) && Stored(lines) + [NUL] <= env && IsMap(changes)
    ensures result == Block(Altered(lines, changes))
  {
    hide Stored, Kept, Added, Find, IsMap, KeyOf, LineAt;
    result := "";
    var curEnv := 0;
    ghost var i := 0;
    EmptyStored();
    EmptyKept(changes);
    BlockEnds(env, lines);
    while env[curEnv] != NUL
      invariant i <= |lines| && curEnv == |Stored(lines[..i])| < |env|
      invariant env[curEnv] == NUL <==> i == |lines|
      invariant result == Stored(Kept(lines[..i], changes))
      decreases |lines| - i
    {
      NextLine(env, lines, i);
      var key, length := ParseEnvLine(env, curEnv, lines[i]);
      NextKept(lines, changes, i);
      KeptOne(lines[i], changes);
      if Find(changes, key) == None {
        TextAt(env, curEnv, lines[i]);
        StoredConcat(Kept(lines[..i], changes), [lines[i]]);
        StoredOne(lines[i]);
        result := result + env[curEnv..curEnv + length];
      } else {
        ConcatEmpty(Kept(lines[..i], changes));
      }
      curEnv := curEnv + length;
      i := i + 1;
      BlockGoesOn(env, lines, i);
    }
    assert lines[..i] == lines;
    result := AppendChanges(result, Kept(lines, changes), changes);
    BlockForm(Altered(lines, changes));
    if result == "" {
      result := result + [NUL];
    }
    result := result + [NUL];
  }

  /** The loop over the changes: stores their lines behind those that text already stores. */
  method AppendChanges(text: string, ghost before: seq<string>, changes: seq<Change>) returns (result: string)
    requires text == Stored(before)
    ensures result == Stored(before + Added(changes))
  {
    hide Stored, Added;
    result := text;
    EmptyAdded();
    ConcatEmpty(before);
    for i := 0 to |changes|
      invariant result == Stored(before + Added(changes[..i]))
    {
      NextAdded(changes, i);
      AddedOne(changes[i]);
      ghost var done := before + Added(changes[..i]);
      ConcatAssoc(before, Added(changes[..i]), Added([changes[i]]));
      if changes[i].value != "" {
        StoredConcat(done, [LineOf(changes[i])]);
        StoredOne(LineOf(changes[i]));
        ConcatAssoc(result, LineOf(changes[i]), [NUL]);
        result := result + changes[i].key;
        result := result + ['='];
        result := result + changes[i].value;
        result := result + [NUL];
      } else {
        ConcatEmpty(done);
      }
    }
    assert changes[..|changes|] == changes;
  }

  lemma EmptyStored()
    ensures Stored([]) == ""
  {
  }

  lemma EmptyKept(changes: seq<Change>)
    ensures Kept([], changes) == []
  {
  }

  lemma EmptyAdded()
    ensures Added([]) == []
  {
  }

  lemma BlockForm(lines: seq<string>)
    ensures Stored(lines) == "" <==> lines == []
    ensures Block(lines) == if Stored(lines) == "" then ("" + [NUL]) + [NUL] else Stored(lines) + [NUL]
  {
  }

  lemma TextAt(s: string, at: nat, line: string)
    requires LineAt(s, at, line)
    ensures at + |line| + 1 <= |s| && s[at..at + (|line| + 1)] == line + [NUL]
  {
  }

  lemma BlockEnds(env: string, lines: seq<string>)
    requires BlockLines(lines) && Stored(lines) + [NUL] <= env
    ensures Stored(lines) <= env && |Stored(lines)| < |env| && env[|Stored(lines)|] == NUL
    ensures 0 < |env| && (env[0] == NUL <==> lines == [])
  {
    hide Stored;
    var all := Stored(lines) + [NUL];
    assert env[|Stored(lines)|] == all[|Stored(lines)|];
    assert Stored(lines) == env[..|Stored(lines)|];
    if lines == [] {
      EmptyStored();
    } else {
      NextLine(env, lines, 0);
      EmptyStored();
      assert lines[..0] == [] && lines[0] in lines && env[0..|lines[0]|][0] == lines[0][0];
      assert lines[0][0] in lines[0];
    }
  }

  /** Behind its first i lines a block has the terminator only if there are no more. */
  lemma BlockGoesOn(env: string, lines: seq<string>, i: nat)
    requires BlockLines(lines) && Stored(lines) + [NUL] <= env && i <= |lines|
    ensures var at := |Stored(lines[..i])|; at < |env| && (env[at] == NUL <==> i == |lines|)
  {
    hide Stored;
    BlockEnds(env, lines);
    var at := |Stored(lines[..i])|;
    if i < |lines| {
      NextLine(env, lines, i);
      var line := lines[i];
      assert line in lines && env[at..at + |line|][0] == line[0] && line[0] in line;
    } else {
      assert lines[..i] == lines;
    }
  }

  // ---------------------------------------------------------------- the POSIX layout

  /** Where line i starts among stored lines. */
  function OffsetOf(lines: seq<string>, i: nat): nat
    requires i <= |lines|
  {
    |Stored(lines[..i])|
  }

  /** offsets has, for each of the lines, where it starts. */
  predicate AreOffsets(offsets: seq<nat>, lines: seq<string>)
  {
    |offsets| == |lines| && forall i :: 0 <= i < |lines| ==> offsets[i] == OffsetOf(lines, i)
  }

  lemma OffsetsExtend(offsets: seq<nat>, lines: seq<string>, line: string)
    requires AreOffsets(offsets, lines)
    ensures AreOffsets(offsets + [|Stored(lines)|], lines + [line])
  {
    hide Stored;
    forall i | 0 <= i < |lines| + 1
      ensures (offsets + [|Stored(lines)|])[i] == OffsetOf(lines + [line], i)
    {
      assert (lines + [line])[..i] == lines[..i];
      assert lines[..|lines|] == lines;
    }
  }

  /** The text and line indices built up for the lines that are kept. */
  method KeepLines(env: seq<string>, ghost lines: seq<string>, changes: seq<Change>)
    returns (text: string, offsets: seq<nat>)
    requires |env| == |lines| && forall i :: 0 <= i < |lines| ==> LineAt(env[i], 0, lines[i])
    ensures text == Stored(Kept(lines, changes)) && AreOffsets(offsets, Kept(lines, changes))
  {
    hide Stored, Kept, Find, KeyOf, LineAt, OffsetOf, AreOffsets;
    text, offsets := "", [];
    EmptyStored();
    EmptyKept(changes);
    NoOffsets();
    for i := 0 to |env|
      invariant text == Stored(Kept(lines[..i], changes))
      invariant AreOffsets(offsets, Kept(lines[..i], changes))
    {
      var key, length := ParseEnvLine(env[i], 0, lines[i]);
      ghost var kept := Kept(lines[..i], changes);
      NextKept(lines, changes, i);
      KeptOne(lines[i], changes);
      if Find(changes, key) == None {
        TextAt(env[i], 0, lines[i]);
        StoredConcat(kept, [lines[i]]);
        StoredOne(lines[i]);
        OffsetsExtend(offsets, kept, lines[i]);
        offsets := offsets + [|text|];
        text := text + env[i][0..0 + length];
      } else {
        ConcatEmpty(kept);
      }
    }
    assert lines[..|env|] == lines;
  }

  lemma NoOffsets()
    ensures AreOffsets([], [])
  {
  }

  method AddLines(text: string, offsets: seq<nat>, ghost before: seq<string>, changes: seq<Change>)
    returns (allText: string, allOffsets: seq<nat>)
    requires text == Stored(before) && AreOffsets(offsets, before)
    ensures allText == Stored(before + Added(changes)) && AreOffsets(allOffsets, before + Added(changes))
  {
    hide Stored, Added, OffsetOf, AreOffsets;
    allText, allOffsets := text, offsets;
    EmptyAdded();
    ConcatEmpty(before);
    for i := 0 to |changes|
      invariant allText == Stored(before + Added(changes[..i]))
      invariant AreOffsets(allOffsets, before + Added(changes[..i]))
    {
      NextAdded(changes, i);
      AddedOne(changes[i]);
      ghost var done := before + Added(changes[..i]);
      ConcatAssoc(before, Added(changes[..i]), Added([changes[i]]));
      if changes[i].value != "" {
        StoredConcat(done, [LineOf(changes[i])]);
        StoredOne(LineOf(changes[i]));
        OffsetsExtend(allOffsets, done, LineOf(changes[i]));
        allOffsets := allOffsets + [|allText|];
        ConcatAssoc(allText, LineOf(changes[i]), [NUL]);
        allText := allText + changes[i].key;
        allText := allText + ['='];
        allText := allText + changes[i].value;
        allText := allText + [NUL];
      } else {
        ConcatEmpty(done);
      }
    }
    assert changes[..|changes|] == changes;
  }

  /**
   What the result of the POSIX version is: words 8-byte words, of which the first hold a pointer to
   every line and a null; pointers count bytes from the start of the result. The other words are
   storage; each pointer is to its own line, with its terminator, inside it.
   */
  ghost predicate IsArrayOf(words: nat, pointers: seq<Option<nat>>, storage: string, lines: seq<string>)
  {
    && |pointers| == |lines| + 1 && |pointers| * WORD + |storage| == words * WORD
    && pointers[|lines|] == None
    && forall i :: 0 <= i < |lines| ==> PointsTo(pointers, storage, i, lines[i])
  }

  /** Pointer i is to line, in bounds and behind all earlier lines. */
  ghost predicate PointsTo(pointers: seq<Option<nat>>, storage: string, i: nat, line: string)
    requires i < |pointers|
  {
    && pointers[i].Some? && pointers[i].value >= |pointers| * WORD
    && TerminatedAt(storage, pointers[i].value - |pointers| * WORD, line)
    && forall j :: 0 <= j < i && pointers[j].Some? ==> pointers[j].value < pointers[i].value
  }

  ghost predicate TerminatedAt(s: string, at: nat, line: string)
  {
    at + |line| < |s| && s[at..at + |line|] == line && s[at + |line|] == NUL
  }

  method AlterArray(env: seq<string>, ghost lines: seq<string>, changes: seq<Change>)
    returns (words: nat, pointers: array<Option<nat>>, storage: array<char>)
    requires |env| == |lines| && forall i :: 0 <= i < |lines| ==> LineAt(env[i], 0, lines[i])
    requires IsMap(changes)
    ensures fresh(pointers) && fresh(storage)
    ensures IsArrayOf(words, pointers[..], storage[..], Altered(lines, changes))
    ensures words == |Altered(lines, changes)| + 1 + (|Stored(Altered(lines, changes))| + 7) / 8
  {
    hide Stored, Kept, Added, IsMap, LineAt, OffsetOf, AreOffsets;
    var text, offsets := KeepLines(env, lines, changes);
    text, offsets := AddLines(text, offsets, Kept(lines, changes), changes);
    ghost var altered := Altered(lines, changes);
    OffsetCount(offsets, altered);
    words := |offsets| + 1 + (|text| + WORD - 1) / WORD;
    pointers := new Option<nat>[|offsets| + 1];
    var size := (words - (|offsets| + 1)) * WORD;
    EnoughWords(|text|);
    storage := new char[size];
    forall i | 0 <= i < |text| {
      storage[i] := text[i];
    }
    assert storage[..|text|] == text;
    var base := pointers.Length * WORD;
    for i := 0 to |offsets|
      invariant storage[..|text|] == text
      invariant forall j :: 0 <= j < i ==> pointers[j] == Some(base + offsets[j])
    {
      pointers[i] := Some(base + offsets[i]);
    }
    pointers[|offsets|] := None;
    assert storage[..][..|text|] == text;
    LayoutFits(words, pointers[..], storage[..], altered, offsets);
  }

  lemma OffsetCount(offsets: seq<nat>, lines: seq<string>)
    requires AreOffsets(offsets, lines)
    ensures |offsets| == |lines|
  {
  }

  lemma EnoughWords(n: nat)
    ensures (n + WORD - 1) / WORD * WORD >= n
  {
  }

  lemma {:induction false} LayoutFits(words: nat, pointers: seq<Option<nat>>, storage: string, lines: seq<string>,
                                      offsets: seq<nat>)
    requires AreOffsets(offsets, lines) && Stored(lines) <= storage
    requires |pointers| == |lines| + 1 && |pointers| * WORD + |storage| == words * WORD && pointers[|lines|] == None
    requires forall j :: 0 <= j < |lines| ==> pointers[j] == Some(|pointers| * WORD + offsets[j])
    ensures IsArrayOf(words, pointers, storage, lines)
  {
    hide Stored;
    forall i | 0 <= i < |lines|
      ensures PointsTo(pointers, storage, i, lines[i])
    {
      StoredAt(lines, i);
      var at := |Stored(lines[..i])|;
      assert storage[at..at + |lines[i]|] == Stored(lines)[at..at + |lines[i]|] == lines[i];
      assert storage[at + |lines[i]|] == Stored(lines)[at + |lines[i]|] == NUL;
      forall j | 0 <= j < i
        ensures offsets[j] < offsets[i]
      {
        OffsetsGrow(lines, j, i);
      }
    }
  }

  lemma {:induction false} OffsetsGrow(lines: seq<string>, i: nat, j: nat)
    requires i < j <= |lines|
    ensures OffsetOf(lines, i) < OffsetOf(lines, j)
    decreases j
  {
    hide Stored;
    StoredAt(lines, j - 1);
    if i < j - 1 {
      OffsetsGrow(lines, i, j - 1);
    }
  }

  // ---------------------------------------------------------------- what the result means

  /** The block that the Windows version returns reads back as the lines it should have. */
  lemma AlteredReadsBack(lines: seq<string>, changes: seq<Change>, rest: string)
    requires BlockLines(lines) && Writable(changes)
    ensures BlockLines(Altered(lines, changes))
    ensures ReadBlock(Block(Altered(lines, changes)) + rest) == Altered(lines, changes)
  {
    hide Stored, ReadBlock;
    var altered := Altered(lines, changes);
    KeptFrom(lines, changes);
    AddedLines(changes);
    BlockReadsBack(altered, rest);
    if altered == [] {
      BlockReadsBack([], [NUL] + rest);
      EmptyStored();
      assert [NUL, NUL] + rest == "" + ([NUL] + ([NUL] + rest));
    } else {
      ConcatAssoc(Stored(altered), [NUL], rest);
    }
  }

  lemma {:induction false} KeptFrom(lines: seq<string>, changes: seq<Change>)
    ensures forall line :: line in Kept(lines, changes) ==> line in lines && Find(changes, KeyOf(line)) == None
  {
    if lines != [] {
      KeptFrom(lines[1..], changes);
    }
  }

  lemma {:induction false} AddedLines(changes: seq<Change>)
    requires Writable(changes)
    ensures forall line :: line in Added(changes) ==> line != "" && NulFree(line)
    ensures forall line :: line in Added(changes) ==> Find(changes, KeyOf(line)).Some?
  {
    if changes != [] {
      assert changes[0] in changes;
      AddedLines(changes[1..]);
      LineKey(changes[0]);
    }
  }

  /** The key of a line that was written for a change is the key of the change. */
  lemma LineKey(c: Change)
    requires '=' !in c.key
    ensures KeyOf(LineOf(c)) == c.key
  {
    var line := LineOf(c);
    assert forall i :: 0 <= i < |c.key| ==> line[i] == c.key[i] && c.key[i] in c.key;
    EqualsFound(line, |c.key|);
    assert line[..|c.key|] == c.key;
  }

  /** Whether what is written for a change is taken for that of some change when it is read. */
  predicate ReadsAsChange(changes: seq<Change>, c: Change)
  {
    Find(changes, KeyOf(LineOf(c))).Some?
  }

  /**
   Applied to its own result, AlterEnvironment changes nothing, exactly when the key that each written
   line reads as is among the changes; keys without '=' read as they are.
   */
  lemma AlterIsIdempotent(lines: seq<string>, changes: seq<Change>)
    ensures Altered(Altered(lines, changes), changes) == Altered(lines, changes)
       <==> forall c :: c in changes && c.value != "" ==> ReadsAsChange(changes, c)
    ensures Writable(changes) ==> Altered(Altered(lines, changes), changes) == Altered(lines, changes)
  {
    var kept, added := Kept(lines, changes), Added(changes);
    KeptFrom(lines, changes);
    KeptAll(kept, changes);
    KeptConcat(kept, added, changes);
    KeptNoneExactly(changes, changes);
    ConcatAssoc(kept, Kept(added, changes), added);
    if Altered(Altered(lines, changes), changes) == Altered(lines, changes) {
      assert |kept + (Kept(added, changes) + added)| == |kept + added|;
    }
    if Kept(added, changes) == [] {
      ConcatEmpty(kept);
    }
    if Writable(changes) {
      AddedLines(changes);
      KeptNone(added, changes);
    }
  }

  /** A change whose key has a '=' in it is written a second time. */
  lemma EqualsInKeyIsAddedAgain()
    ensures var changes := [Change("a=b", "v")]; Altered(Altered([], changes), changes) != Altered([], changes)
  {
    var changes := [Change("a=b", "v")];
    AlterIsIdempotent([], changes);
    assert changes[0] in changes && !ReadsAsChange(changes, changes[0]);
  }

  lemma {:induction false} KeptNoneExactly(some: seq<Change>, changes: seq<Change>)
    ensures Kept(Added(some), changes) == [] <==> forall c :: c in some && c.value != "" ==> ReadsAsChange(changes, c)
    decreases |some|
  {
    if some != [] {
      var c, rest := some[0], some[1..];
      KeptNoneExactly(rest, changes);
      assert forall x :: x in some <==> x == c || x in rest;
      if c.value != "" {
        KeptConcat([LineOf(c)], Added(rest), changes);
        KeptOne(LineOf(c), changes);
      } else {
        ConcatEmpty(Added(rest));
      }
    }
  }

  lemma {:induction false} KeptAll(lines: seq<string>, changes: seq<Change>)
    requires forall line :: line in lines ==> Find(changes, KeyOf(line)) == None
    ensures Kept(lines, changes) == lines
  {
    if lines != [] {
      KeptAll(lines[1..], changes);
    }
  }

  lemma {:induction false} KeptNone(lines: seq<string>, changes: seq<Change>)
    requires forall line :: line in lines ==> Find(changes, KeyOf(line)).Some?
    ensures Kept(lines, changes) == []
  {
    if lines != [] {
      KeptNone(lines[1..], changes);
    }
  }

  /** The line that a reader finds for a key: the first that has it. */
  function Get(lines: seq<string>, key: string): (line: Option<string>)
  {
    if lines == [] then None
    else if KeyOf(lines[0]) == key then Some(lines[0])
    else Get(lines[1..], key)
  }

  lemma {:induction false} GetConcat(a: seq<string>, b: seq<string>, key: string)
    ensures Get(a + b, key) == if Get(a, key).Some? then Get(a, key) else Get(b, key)
  {
    if a == [] {
      ConcatEmpty(b);
    } else {
      GetConcat(a[1..], b, key);
      ConcatTail(a, b);
    }
  }

  lemma {:induction false} GetKept(lines: seq<string>, changes: seq<Change>, key: string)
    ensures Get(Kept(lines, changes), key) == if Find(changes, key).Some? then None else Get(lines, key)
  {
    if lines != [] {
      GetKept(lines[1..], changes, key);
      var rest := Kept(lines[1..], changes);
      if Find(changes, KeyOf(lines[0])) == None {
        assert ([lines[0]] + rest)[1..] == rest;
      } else {
        ConcatEmpty(rest);
      }
    }
  }

  lemma {:induction false} LessIrreflexive(a: string)
    ensures !Less(a, a)
  {
    if a != "" {
      LessIrreflexive(a[1..]);
    }
  }

  lemma {:induction false} GetAdded(changes: seq<Change>, key: string)
    requires Writable(changes) && IsMap(changes)
    ensures var value := Find(changes, key);
            Get(Added(changes), key) == if value.None? || value.value == "" then None
                                        else Some(LineOf(Change(key, value.value)))
  {
    if changes != [] {
      var c, rest := changes[0], Added(changes[1..]);
      assert c in changes;
      GetAdded(changes[1..], key);
      LineKey(c);
      if c.value != "" {
        assert ([LineOf(c)] + rest)[1..] == rest;
      } else {
        ConcatEmpty(rest);
        if c.key == key {
          NotAgain(changes);
        }
      }
    }
  }

  /** A map has its first key once. */
  lemma NotAgain(changes: seq<Change>)
    requires changes != [] && IsMap(changes)
    ensures Find(changes[1..], changes[0].key) == None
  {
    forall j | 0 <= j < |changes[1..]|
      ensures changes[1..][j].key != changes[0].key
    {
      assert Less(changes[0].key, changes[j + 1].key);
      LessIrreflexive(changes[0].key);
    }
    FindNone(changes[1..], changes[0].key);
  }

  lemma {:induction false} FindNone(changes: seq<Change>, key: string)
    requires forall j :: 0 <= j < |changes| ==> changes[j].key != key
    ensures Find(changes, key) == None
  {
    if changes != [] {
      FindNone(changes[1..], key);
    }
  }

  /** What the result has for each key: the change, nothing if its value is empty, else what was there. */
  lemma GetAltered(lines: seq<string>, changes: seq<Change>, key: string)
    requires Writable(changes) && IsMap(changes)
    ensures var value := Find(changes, key);
            Get(Altered(lines, changes), key)
              == if value.None? then Get(lines, key)
                 else if value.value == "" then None
                 else Some(LineOf(Change(key, value.value)))
  {
    GetConcat(Kept(lines, changes), Added(changes), key);
    GetKept(lines, changes, key);
    GetAdded(changes, key);
  }

  /** Two applications do, for every key, what the second changes over the first would do. */
  lemma AlterComposes(lines: seq<string>, first: seq<Change>, second: seq<Change>,
                      both: seq<Change>, key: string)
    requires Writable(first) && IsMap(first) && Writable(second) && IsMap(second) && Writable(both) && IsMap(both)
    requires Find(both, key) == if Find(second, key).Some? then Find(second, key) else Find(first, key)
    ensures Get(Altered(Altered(lines, first), second), key) == Get(Altered(lines, both), key)
  {
    GetAltered(Altered(lines, first), second, key);
    GetAltered(lines, first, key);
    GetAltered(lines, both, key);
  }

  // ---------------------------------------------------------------- what the tests ask for

  lemma OneChange(line: string, c: Change)
    ensures Altered([], [c]) == (if c.value != "" then [LineOf(c)] else []) && Altered([line], []) == [line]
    ensures Altered([line], [c])
         == (if KeyOf(line) == c.key then [] else [line]) + (if c.value != "" then [LineOf(c)] else [])
  {
    assert [c][1..] == [] && Find([], KeyOf(line)) == None;
    assert Find([c], KeyOf(line)) == if c.key == KeyOf(line) then Some(c.value) else None;
    KeptOne(line, []);
    KeptOne(line, [c]);
    AddedOne(c);
    EmptyAdded();
    EmptyKept([c]);
    hide Kept, Added, Find, KeyOf, LineOf;
  }

  /** The cases of environment_unittest.cc: no change, a change, and one with an empty value. */
  lemma AlterAnswers()
    ensures Altered([], []) == [] && Altered([], [Change("A", "1")]) == ["A=1"] && Altered([], [Change("A", "")]) == []
    ensures Altered(["A=2"], []) == ["A=2"] && Altered(["A=2"], [Change("A", "1")]) == ["A=1"]
    ensures Altered(["A=2"], [Change("A", "")]) == [] && Altered(["A=2"], [Change("B", "1")]) == ["A=2", "B=1"]
  {
    KeyOfTwo();
    EmptyKept([]);
    EmptyAdded();
    hide Kept, Added, KeyOf;
    assert Altered([], []) == [];
    hide Altered;
    OneChange("A=2", Change("A", "1"));
    OneChange("A=2", Change("A", ""));
    OneChange("A=2", Change("B", "1"));
    assert LineOf(Change("A", "1")) == "A=1" && LineOf(Change("B", "1")) == "B=1";
  }

  lemma KeyOfTwo()
    ensures KeyOf("A=2") == "A"
  {
    EqualsFound("A=2", 1);
  }

  /** As a block, with the terminators of its lines and its own. */
  lemma BlockAnswers()
    ensures Block([]) == "\0\0" && Block(["A=1"]) == "A=1\0\0" && WORD == 8
  {
    StoredOne("A=1");
    hide Stored;
    assert "A=1" + [NUL] + [NUL] == "A=1\0\0";
  }
}
