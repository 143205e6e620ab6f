/**
 From a command line to its arguments string and back. What is read of the string is compared with
 what was written by its size: nothing is gained, and where something is lost the size drops or an
 element has come apart.
 */
module CommandLineRoundTrips {
  import opened ArgvQuoting
  import opened CommandLines
  import opened RawNames
  import opened ReadSizes
  import opened Sequences
  import opened Strings

  // ---------------------------------------------------------------- which elements survive

  /** Whether an element, written for CommandLineToArgvW, is read as itself. */
  predicate SurvivesAs(os: Platform, elem: string, parsing: bool, placeholders: bool)
  {
    if parsing && IsSwitch(os, elem) then
      && Plain(NameOf(elem))
      && if ValueOf(elem) == "" then FindEquals(elem) == |elem|
         else NeedsQuotes(ValueOf(elem), placeholders) || TabFree(ValueOf(elem))
    else Survives(elem, placeholders)
  }

  predicate AllSurvive(os: Platform, elems: seq<string>, parsing: bool, placeholders: bool)
  {
    elems == []
    || var still := parsing && elems[0] != TERMINATOR;
       SurvivesAs(os, elems[0], still, placeholders) && AllSurvive(os, elems[1..], still, placeholders)
  }

  lemma {:induction false} SwitchSplits(elem: string)
    ensures ValueOf(elem) != "" ==> elem == (NameOf(elem) + "=") + ValueOf(elem)
    ensures ValueOf(elem) == "" && FindEquals(elem) < |elem| ==> elem == NameOf(elem) + "="
    ensures FindEquals(elem) == |elem| ==> elem == NameOf(elem)
  {
  }

  lemma SwitchNamed(os: Platform, elem: string)
    requires IsSwitch(os, elem)
    ensures NameOf(elem) != "" && NameOf(elem)[0] in "-/"
  {
  }

  // ---------------------------------------------------------------- what InitFromArgv stores

  lemma SizeOfAgain(os: Platform, t: string)
    requires IsSwitch(os, t)
    ensures |Again(os, t)| <= |t|
  {
    AgainForm(os, t);
    SwitchSplits(t);
  }

  /** What is stored is no larger than what was read, and as many. */
  lemma {:induction false} SizeOfStored(os: Platform, elems: seq<string>, parsing: bool)
    ensures var items := Items(os, elems, parsing);
            && Size(SwitchElems(os, items)) + Size(ArgElems(items)) <= Size(elems)
            && |SwitchElems(os, items)| + |ArgElems(items)| == |elems|
    decreases |elems|
  {
    hide Trim, IsSwitch, NameOf, ValueOf, Combined;
    if elems != [] {
      var e := Trim(os, elems[0]);
      var still := parsing && e != TERMINATOR;
      var rest := Items(os, elems[1..], still);
      SizeOfStored(os, elems[1..], still);
      TrimTrims(os, elems[0]);
      assert Items(os, elems, parsing) == [ItemOf(os, e, still)] + rest;
      assert ([ItemOf(os, e, still)] + rest)[1..] == rest;
      if still && IsSwitch(os, e) {
        SizeOfAgain(os, e);
        assert ([Again(os, e)] + SwitchElems(os, rest))[1..] == SwitchElems(os, rest);
      } else {
        assert ([e] + ArgElems(rest))[1..] == ArgElems(rest);
      }
    }
  }

  // ---------------------------------------------------------------- a name with a quote

  /** The name of some switch has a quote. */
  predicate RawQuote(os: Platform, elems: seq<string>, parsing: bool)
  {
    elems != []
    && var still := parsing && elems[0] != TERMINATOR;
       (still && IsSwitch(os, elems[0]) && QUOTE in NameOf(elems[0])) || RawQuote(os, elems[1..], still)
  }

  lemma YieldText(os: Platform, elem: string, parsing: bool, placeholders: bool)
    requires os.Windows?
    ensures var y := Yield(Text(os, elem, parsing, placeholders));
            y <= |elem| && (parsing && IsSwitch(os, elem) && QUOTE in NameOf(elem) ==> y < |elem|)
  {
    hide Yield, Quote, IsSwitch;
    if parsing && IsSwitch(os, elem) {
      var name, value := NameOf(elem), ValueOf(elem);
      SwitchSplits(elem);
      YieldRaw(name);
      ConcatEmpty(name);
      if value != "" {
        YieldWritten(value, placeholders);
        YieldConcat(name, "=" + Quote(value, placeholders));
        YieldChar('=', Quote(value, placeholders));
      }
    } else {
      YieldWritten(elem, placeholders);
    }
  }

  lemma {:induction false} YieldTexts(os: Platform, elems: seq<string>, parsing: bool, placeholders: bool)
    requires os.Windows?
    ensures var y := Yield(Appended(Texts(os, elems, parsing, placeholders)));
            y <= Size(elems) && (RawQuote(os, elems, parsing) ==> y < Size(elems))
    decreases |elems|
  {
    hide Text, IsSwitch, NameOf, Yield;
    if elems == [] {
      YieldRaw("");
    } else {
      var still := parsing && elems[0] != TERMINATOR;
      var texts := Texts(os, elems, parsing, placeholders);
      assert texts[1..] == Texts(os, elems[1..], still, placeholders);
      YieldTexts(os, elems[1..], still, placeholders);
      YieldText(os, elems[0], still, placeholders);
      YieldChar(' ', texts[0] + Appended(texts[1..]));
      YieldConcat(texts[0], Appended(texts[1..]));
    }
  }

  // ---------------------------------------------------------------- names without quotes

  /** What is found for an element that does not survive: smaller than the element, or in more than one part. */
  predicate Lost(e: string, list: seq<string>)
  {
    Size(list) <= |e| || (Size(list) == |e| + 1 && |list| > 1)
  }

  lemma SizeOfOne(x: string)
    ensures Size([x]) == |x| + 1
  {
  }

  /** A text without quotes and blanks, cut at its tabs. */
  lemma {:induction false} SizeOfPieces(a: string)
    requires Bare(a)
    ensures a != "" && TabFree(a) ==> Parse(a) == [a]
    ensures a == "" || !TabFree(a) ==> Lost(a, Parse(a))
    ensures a != "" && a[0] == '\t' ==> Size(Parse(a)) <= |a|
    decreases |a|
  {
    hide ParseArg, Run;
    if a != "" && a[0] == '\t' {
      SizeOfPieces(a[1..]);
      if a[1..] != "" && TabFree(a[1..]) {
        SizeOfOne(a[1..]);
      }
    } else if a != "" {
      BarePieces(a);
      var k := FirstTab(a);
      BareBegins(a, "");
      assert a + "" == a && a[k..] + "" == a[k..];
      assert ([a[..k]] + Parse(a[k..]))[1..] == Parse(a[k..]);
      if !TabFree(a) {
        SizeOfPieces(a[k..]);
      }
    }
  }

  /** A name and a value as one element, and as they are written. */
  function Element(name: string, value: string): (e: string) { name + (if value == "" then "" else "=" + value) }

  function WrittenAs(name: string, value: string, placeholders: bool): (text: string)
  {
    name + (if value == "" then "" else "=" + Quote(value, placeholders))
  }

  /** Behind a plain name, nothing is lost. */
  predicate Whole(name: string, value: string, placeholders: bool)
  {
    if value == "" then name != "" else NeedsQuotes(value, placeholders) || TabFree(value)
  }

  /** A name without blanks. */
  lemma PlainPieces(name: string, value: string, placeholders: bool) returns (list: seq<string>)
    requires Plain(name)
    ensures Delivers(WrittenAs(name, value, placeholders), list)
    ensures var e := Element(name, value); if Whole(name, value, placeholders) then list == [e] else Lost(e, list)
  {
    hide Parse, QuoteBody;
    var e := Element(name, value);
    if value == "" {
      ConcatEmpty(name);
      SizeOfPieces(name);
      list := Parse(name);
      forall rest | Ends(rest) ensures Parse(name + rest) == list + Parse(rest) { BareDelivers(name, rest); }
    } else if NeedsQuotes(value, placeholders) {
      list := [e];
      ConcatAssoc(name, "=", value);
      ConcatAssoc(name, "=", Quote(value, placeholders));
      forall rest | Ends(rest)
        ensures Parse(WrittenAs(name, value, placeholders) + rest) == list + Parse(rest)
      {
        QuotedDelivers(name + "=", value, rest);
      }
    } else {
      UnquotedIsBare(value, placeholders);
      assert Bare(e) && e[|name| + 1..] == value;
      assert TabFree(e) <==> TabFree(value) by {
        assert forall i :: 0 <= i < |value| ==> value[i] == e[|name| + 1 + i];
      }
      SizeOfPieces(e);
      list := Parse(e);
      forall rest | Ends(rest) ensures Parse(e + rest) == list + Parse(rest) { BareDelivers(e, rest); }
    }
  }

  function FirstBlank(name: string): (k: nat)
    ensures k <= |name| && (k < |name| ==> IsBlank(name[k])) && forall i :: 0 <= i < k ==> !IsBlank(name[i])
  {
    if name == "" || IsBlank(name[0]) then 0 else 1 + FirstBlank(name[1..])
  }

  /** A name without quotes, cut at its blanks. */
  lemma {:induction false} NamePieces(name: string, value: string, placeholders: bool) returns (list: seq<string>)
    requires QUOTE !in name
    ensures Delivers(WrittenAs(name, value, placeholders), list)
    ensures var e := Element(name, value);
            if Plain(name) && Whole(name, value, placeholders) then list == [e] else Lost(e, list)
    ensures name != "" && IsBlank(name[0]) ==> Size(list) <= |Element(name, value)|
    decreases |name|
  {
    hide Parse, Quote, Delivers, NeedsQuotes;
    var k := FirstBlank(name);
    if k == |name| {
      assert Plain(name) by {
        assert forall i :: 0 <= i < |name| ==> name[i] in name;
      }
      list := PlainPieces(name, value, placeholders);
    } else if k == 0 {
      list := NamePieces(name[1..], value, placeholders);
      SizeOfOne(Element(name[1..], value));
      BlankDelivers(name, value, placeholders, list);
      assert |Element(name, value)| == 1 + |Element(name[1..], value)|;
    } else {
      assert name[..k] != "" && Plain(name[..k]) by {
        assert forall i :: 0 <= i < k ==> name[i] in name;
      }
      assert QUOTE !in name[k..] by {
        assert forall i :: k <= i < |name| ==> name[i] in name;
      }
      var more := NamePieces(name[k..], value, placeholders);
      list := [name[..k]] + more;
      HeadDelivers(name, k, value, placeholders, more);
      assert list[1..] == more;
      assert |Element(name, value)| == k + |Element(name[k..], value)|;
    }
  }

  lemma BlankDelivers(name: string, value: string, placeholders: bool, list: seq<string>)
    requires name != "" && IsBlank(name[0]) && Delivers(WrittenAs(name[1..], value, placeholders), list)
    ensures Delivers(WrittenAs(name, value, placeholders), list)
  {
    hide ParseArg, Quote;
    var text := WrittenAs(name, value, placeholders);
    forall rest | Ends(rest)
      ensures Parse(text + rest) == list + Parse(rest)
    {
      assert (text + rest)[1..] == WrittenAs(name[1..], value, placeholders) + rest;
      assert (text + rest)[0] == name[0];
    }
  }

  lemma HeadDelivers(name: string, k: nat, value: string, placeholders: bool, more: seq<string>)
    requires 0 < k < |name| && IsBlank(name[k]) && Plain(name[..k])
    requires Delivers(WrittenAs(name[k..], value, placeholders), more)
    ensures Delivers(WrittenAs(name, value, placeholders), [name[..k]] + more)
  {
    hide Parse, Quote;
    var text := WrittenAs(name, value, placeholders);
    BarePieces(name[..k]);
    forall rest | Ends(rest)
      ensures Parse(text + rest) == [name[..k]] + more + Parse(rest)
    {
      var behind := WrittenAs(name[k..], value, placeholders) + rest;
      assert text + rest == name[..k] + behind && behind[0] == name[k];
      BareDelivers(name[..k], behind);
      ConcatAssoc([name[..k]], more, Parse(rest));
    }
  }

  /** What is found for an element, unless it is a switch whose name has a quote. */
  lemma ElementPieces(os: Platform, elem: string, parsing: bool, placeholders: bool) returns (list: seq<string>)
    requires os.Windows? && !(parsing && IsSwitch(os, elem) && QUOTE in NameOf(elem))
    ensures Delivers(Text(os, elem, parsing, placeholders), list)
    ensures if SurvivesAs(os, elem, parsing, placeholders) then list == [elem] else Lost(elem, list)
  {
    hide Parse, Quote, Delivers, NeedsQuotes, Plain;
    if parsing && IsSwitch(os, elem) {
      var name, value := NameOf(elem), ValueOf(elem);
      SwitchSplits(elem);
      SwitchNamed(os, elem);
      ConcatEmpty(name);
      ConcatAssoc(name, "=", value);
      hide IsSwitch, NameOf, ValueOf, FindEquals;
      list := NamePieces(name, value, placeholders);
      SizeOfOne(name);
    } else {
      ArgPieces(elem, placeholders);
      list := Delivered(elem, placeholders);
    }
  }

  lemma ArgPieces(arg: string, placeholders: bool)
    ensures Delivers(Quote(arg, placeholders), Delivered(arg, placeholders))
    ensures if Survives(arg, placeholders) then Delivered(arg, placeholders) == [arg]
            else Lost(arg, Delivered(arg, placeholders))
  {
    hide Parse, Delivers, Size;
    QuoteDelivers(arg, placeholders);
    if !NeedsQuotes(arg, placeholders) {
      UnquotedIsBare(arg, placeholders);
      SizeOfPieces(arg);
    }
  }

  /** Smaller than what was written, or in more parts. */
  predicate Less(found: seq<string>, elems: seq<string>)
  {
    Size(found) < Size(elems) || (Size(found) == Size(elems) && |found| > |elems|)
  }

  lemma LessJoined(elem: string, list: seq<string>, found: seq<string>, elems: seq<string>)
    requires list == [elem] || Lost(elem, list)
    requires found == elems || Less(found, elems)
    ensures list == [elem] && found == elems ==> list + found == [elem] + elems
    ensures (list == [elem] && found == elems) || Less(list + found, [elem] + elems)
  {
    SizeConcat(list, found);
    SizeConcat([elem], elems);
    SizeOfOne(elem);
  }

  lemma NothingFound()
    ensures Parse(Appended([])) == []
  {
  }

  lemma AppendedFirst(os: Platform, elems: seq<string>, parsing: bool, placeholders: bool)
    requires elems != []
    ensures var still := parsing && elems[0] != TERMINATOR;
            var rest := Appended(Texts(os, elems[1..], still, placeholders));
            && Ends(rest)
            && Parse(Appended(Texts(os, elems, parsing, placeholders)))
               == Parse(Text(os, elems[0], still, placeholders) + rest)
  {
    hide ParseArg, Text;
    var texts := Texts(os, elems, parsing, placeholders);
    var still := parsing && elems[0] != TERMINATOR;
    assert texts[1..] == Texts(os, elems[1..], still, placeholders);
    ConcatTail([' '], texts[0] + Appended(texts[1..]));
    ConcatEmpty(texts[0] + Appended(texts[1..]));
  }

  lemma {:induction false} LinePieces(os: Platform, elems: seq<string>, parsing: bool, placeholders: bool)
    requires os.Windows? && !RawQuote(os, elems, parsing)
    ensures var found := Parse(Appended(Texts(os, elems, parsing, placeholders)));
            if AllSurvive(os, elems, parsing, placeholders) then found == elems else Less(found, elems)
    decreases |elems|
  {
    hide Parse, Text, SurvivesAs, IsSwitch, NameOf, Lost, Size;
    if elems == [] {
      NothingFound();
    } else {
      var still := parsing && elems[0] != TERMINATOR;
      LinePieces(os, elems[1..], still, placeholders);
      AppendedFirst(os, elems, parsing, placeholders);
      var rest := Appended(Texts(os, elems[1..], still, placeholders));
      var list := ElementPieces(os, elems[0], still, placeholders);
      OneIsWhole(elems[0], list);
      LessJoined(elems[0], list, Parse(rest), elems[1..]);
      assert elems == [elems[0]] + elems[1..];
      assert Parse(Text(os, elems[0], still, placeholders) + rest) == list + Parse(rest);
      hide Less, Delivers, Texts, Appended;
      assert AllSurvive(os, elems, parsing, placeholders)
        <==> SurvivesAs(os, elems[0], still, placeholders) && AllSurvive(os, elems[1..], still, placeholders);
    }
  }

  lemma OneIsWhole(elem: string, list: seq<string>)
    ensures list == [elem] ==> !Lost(elem, list)
  {
  }

  // ---------------------------------------------------------------- the round trip

  /** If an element does not survive, what is read is smaller than the elements, or in more parts. */
  lemma LostIsLess(os: Platform, elems: seq<string>, placeholders: bool)
    requires os.Windows? && !AllSurvive(os, elems, true, placeholders)
    ensures Less(Parse(Join(Texts(os, elems, true, placeholders))), elems)
  {
    hide Parse, Text, AllSurvive, Size, Yield, RawQuote;
    ReadAppended(os, elems, placeholders);
    if RawQuote(os, elems, true) {
      YieldTexts(os, elems, true, placeholders);
      ParseYields(Appended(Texts(os, elems, true, placeholders)));
    } else {
      LinePieces(os, elems, true, placeholders);
    }
  }

  /**
   On Windows the arguments string, read by the rules of CommandLineToArgvW, gives back the elements
   after the program exactly when each of them survives.
   */
  lemma ArgumentsStringRoundTrips(os: Platform, elems: seq<string>, placeholders: bool)
    requires os.Windows?
    ensures Parse(Join(Texts(os, elems, true, placeholders))) == elems <==> AllSurvive(os, elems, true, placeholders)
  {
    hide Parse, Join, Text, Texts, Size;
    if AllSurvive(os, elems, true, placeholders) {
      ReadAppended(os, elems, placeholders);
      SurvivorsArePlain(os, elems, true, placeholders);
      LinePieces(os, elems, true, placeholders);
    } else {
      LostIsLess(os, elems, placeholders);
    }
  }

  lemma {:induction false} SurvivorsArePlain(os: Platform, elems: seq<string>, parsing: bool, placeholders: bool)
    requires AllSurvive(os, elems, parsing, placeholders)
    ensures !RawQuote(os, elems, parsing)
    decreases |elems|
  {
    hide IsSwitch, NameOf, ValueOf;
    if elems != [] {
      SurvivorsArePlain(os, elems[1..], parsing && elems[0] != TERMINATOR, placeholders);
    }
  }

  /** If an element does not survive, what the arguments string is read as gives another command line. */
  lemma LostIsMissed(os: Platform, program: string, elems: seq<string>, placeholders: bool)
    requires os.Windows? && !AllSurvive(os, elems, true, placeholders)
    ensures Initial(os, [program] + Parse(Join(Texts(os, elems, true, placeholders)))).argv[1..] != elems
  {
    LostIsLess(os, elems, placeholders);
    hide Parse, Text, AllSurvive, Less, Texts, Join;
    StoredIsOther(os, program, Parse(Join(Texts(os, elems, true, placeholders))), elems);
  }

  lemma ReadAppended(os: Platform, elems: seq<string>, placeholders: bool)
    ensures var texts := Texts(os, elems, true, placeholders);
            && Parse(Join(texts)) == Parse(Appended(texts)) && Ends(Appended(texts))
  {
    hide ParseArg, Text;
    var texts := Texts(os, elems, true, placeholders);
    if elems != [] {
      ConcatTail([' '], texts[0] + Appended(texts[1..]));
      ConcatEmpty(texts[0] + Appended(texts[1..]));
    }
  }

  lemma StoredIsOther(os: Platform, program: string, read: seq<string>, elems: seq<string>)
    requires Less(read, elems)
    ensures Initial(os, [program] + read).argv[1..] != elems
  {
    hide Items, SwitchElems, ArgElems, Size;
    SizeOfStored(os, read, true);
    var st, at := SwitchElems(os, Items(os, read, true)), ArgElems(Items(os, read, true));
    SizeConcat(st, at);
    assert ([program] + read)[1..] == read;
    assert Initial(os, [program] + read).argv[1..] == st + at;
  }

  /**
   From a command line to its arguments string and back: the program and the arguments that the
   string is read as give the same command line exactly when all elements survive and none dangles.
   */
  lemma LineRoundTrips(os: Platform, argv: seq<string>, placeholders: bool)
    requires os.Windows? && argv != []
    ensures var p := Initial(os, argv);
            Initial(os, [p.argv[0]] + Parse(Join(Texts(os, p.argv[1..], true, placeholders)))) == p
            <==> AllSurvive(os, p.argv[1..], true, placeholders)
                 && forall t :: t in SwitchTokens(os, argv[1..], true) ==> !Dangling(os, t)
  {
    hide Parse, Join, Texts, AllSurvive, Grown, SwitchTokens;
    var p := Initial(os, argv);
    if AllSurvive(os, p.argv[1..], true, placeholders) {
      ArgumentsStringRoundTrips(os, p.argv[1..], placeholders);
      ReadingAgain(os, argv);
      assert [p.argv[0]] + p.argv[1..] == p.argv;
    } else {
      LostIsMissed(os, p.argv[0], p.argv[1..], placeholders);
    }
  }
}
