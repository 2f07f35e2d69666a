/** The errors of the decoder: which text gives which, at any depth and behind any complete parts. */
module JsonErrors {
  import opened Wrappers
  import opened Sequences
  import opened JsonStrings
  import opened LuaValues
  import opened JsonDecoder
  import opened JsonGrammar
  import opened JsonReads

  /** Text `e` of the text is its end, or no blank. */
  predicate Settled(text: string, e: nat) {
    e <= |text| && (e < |text| ==> text[e] != ' ' && text[e] != '\n' && text[e] != '\r' && text[e] != '\t')
  }

  lemma {:induction false} BlanksTo(text: string, i: nat, blank: string)
    requires Blank(blank) && At(text, i, blank) && Settled(text, i + |blank|)
    ensures SkipWhitespace(text, i) == i + |blank|
    decreases |blank|
  {
    if blank != "" {
      BlanksTo(text, i + 1, blank[1..]);
    }
  }

  lemma SettledStays(text: string, e: nat)
    requires Settled(text, e)
    ensures SkipWhitespace(text, e) == e
  {
  }

  // ---------- Inside an array ----------

  /** The items, a comma behind each, and blanks behind the last comma. */
  function ItemsSoFar(items: Items, blank: string): string {
    JText(items.item) + (items.after + ("," +
      if items.Item? then items.rest.before + ItemsSoFar(items.rest, blank) else blank))
  }

  /** `r` is what the array loop gives from `e` on. */
  ghost predicate ItemsGive(text: string, e: nat, r: Result<Parse<Value>, DecodeError>) {
    exists index: nat, entries :: r == ItemsFrom(text, e, index, entries)
  }

  /** At `e` the array that is opened at `i` waits for an item. */
  ghost predicate InArray(text: string, i: nat, e: nat) { ItemsGive(text, e, OneAt(text, i)) }

  lemma ItemsStep(text: string, i: nat, items: Items, rest: string, index: nat, entries: map<Key, Value>)
    requires ItemsOk(items) && i < |text| && At(text, i, JText(items.item) + (items.after + ("," + rest)))
    ensures var comma := i + |JText(items.item)| + |items.after|;
            && At(text, comma + 1, rest)
            && ItemsFrom(text, i, index, entries) ==
               ItemsFrom(text, SkipWhitespace(text, comma + 1), index + 1,
                         Assign(entries, Num(index), Meaning(items.item)))
  {
    hide OneAt, Meaning, JText, JsonOk, Assign, Stops;
    var end := i + |JText(items.item)|;
    AtConcat(text, i, JText(items.item), items.after + ([','] + rest));
    BlanksSkipped(text, end, items.after, ',', rest);
    AtConcat(text, end, items.after, [','] + rest);
    AtConcat(text, end, items.after, [',']);
    AtConcat(text, end + |items.after|, [','], rest);
    StopsThere(items.item, text, end, items.after, ',');
    ValueReads(text, i, items.item);
  }

  lemma {:induction false} ItemsGoOn(text: string, i: nat, items: Items, blank: string, index: nat,
                                     entries: map<Key, Value>)
    requires ItemsOk(items) && Blank(blank) && i < |text| && At(text, i, ItemsSoFar(items, blank))
    requires Settled(text, i + |ItemsSoFar(items, blank)|)
    ensures ItemsGive(text, i + |ItemsSoFar(items, blank)|, ItemsFrom(text, i, index, entries))
    decreases items
  {
    hide OneAt, Meaning, JText, JsonOk, Assign, ItemsFrom;
    var comma := i + |JText(items.item)| + |items.after|;
    var entries' := Assign(entries, Num(index), Meaning(items.item));
    if items.Item? {
      var rest := items.rest.before + ItemsSoFar(items.rest, blank);
      ItemsStep(text, i, items, rest, index, entries);
      SoFarBegins(text, comma + 1, items.rest, blank);
      ItemsGoOn(text, comma + 1 + |items.rest.before|, items.rest, blank, index + 1, entries');
    } else {
      ItemsStep(text, i, items, blank, index, entries);
      BlanksTo(text, comma + 1, blank);
    }
  }

  lemma SoFarBegins(text: string, i: nat, items: Items, blank: string)
    requires ItemsOk(items) && At(text, i, items.before + ItemsSoFar(items, blank))
    ensures var start := i + |items.before|;
            && start < |text| && text[start] != ']' && SkipWhitespace(text, i) == start
            && At(text, start, ItemsSoFar(items, blank))
  {
    Begins(items.item);
    AtConcat(text, i, items.before, ItemsSoFar(items, blank));
    var t := ItemsSoFar(items, blank);
    assert t == [t[0]] + t[1..] && t[0] == JText(items.item)[0];
    BlanksSkipped(text, i, items.before, t[0], t[1..]);
  }

  /** Behind a bracket and blanks an array waits for its first item. */
  lemma ArrayWaits(text: string, i: nat, blank: string)
    requires Blank(blank) && At(text, i, "[" + blank)
    requires var e := i + 1 + |blank|; Settled(text, e) && !CharIs(text, e, ']')
    ensures InArray(text, i, i + 1 + |blank|)
  {
    hide ItemsFrom;
    AtConcat(text, i, "[", blank);
    BlanksTo(text, i + 1, blank);
    assert text[i] == '[';
    assert OneAt(text, i) == ItemsFrom(text, i + 1 + |blank|, 1, map[]);
  }

  /** Behind any items, each with its comma, it waits for the next. */
  lemma ArrayWaitsAgain(text: string, i: nat, items: Items, blank: string)
    requires ItemsOk(items) && Blank(blank) && At(text, i, "[" + (items.before + ItemsSoFar(items, blank)))
    requires Settled(text, i + 1 + |items.before| + |ItemsSoFar(items, blank)|)
    ensures InArray(text, i, i + 1 + |items.before| + |ItemsSoFar(items, blank)|)
  {
    hide ItemsFrom, ItemsSoFar;
    AtConcat(text, i, "[", items.before + ItemsSoFar(items, blank));
    SoFarBegins(text, i + 1, items, blank);
    assert text[i] == '[';
    assert OneAt(text, i) == ItemsFrom(text, i + 1 + |items.before|, 1, map[]);
    ItemsGoOn(text, i + 1 + |items.before|, items, blank, 1, map[]);
  }

  /** What an array that waits for an item fails with: the text ends; the item fails; the item is followed
      by neither comma nor bracket. */
  lemma ArrayErrors(text: string, i: nat, e: nat)
    requires InArray(text, i, e)
    ensures e >= |text| ==> OneAt(text, i) == Failure(UnclosedBracket)
    ensures e < |text| && OneAt(text, e).Failure? ==> OneAt(text, i) == Failure(OneAt(text, e).error)
    ensures e < |text| && OneAt(text, e).Success? ==>
              var behind := SkipWhitespace(text, OneAt(text, e).value.next);
              !CharIs(text, behind, ',') && !CharIs(text, behind, ']') ==>
                OneAt(text, i) == Failure(ExpectedCommaOrBracket)
  {
    hide OneAt;
  }

  // ---------- Inside an object ----------

  function MembersSoFar(m: Members, blank: string): string {
    PairText(m) + (m.after + ("," + if m.Member? then m.rest.before + MembersSoFar(m.rest, blank) else blank))
  }

  /** At `e` the object that is opened at `i` waits for a member. */
  ghost predicate InObject(text: string, i: nat, e: nat) { MembersGive(text, e, OneAt(text, i)) }

  ghost predicate MembersGive(text: string, e: nat, r: Result<Parse<Value>, DecodeError>) {
    exists entries :: r == MembersFrom(text, e, entries)
  }

  lemma MembersStep(text: string, i: nat, m: Members, rest: string, entries: map<Key, Value>)
    requires MembersOk(m) && i < |text| && At(text, i, PairText(m) + (m.after + ("," + rest)))
    ensures var comma := i + |PairText(m)| + |m.after|;
            && At(text, comma + 1, rest)
            && MembersFrom(text, i, entries) ==
               MembersFrom(text, SkipWhitespace(text, comma + 1),
                           Assign(entries, Key.Str(StringMeaning(m.key)), Meaning(m.value)))
  {
    hide MemberAt, Meaning, StringMeaning, JsonOk, PartsOk, Assign, Stops, PairText;
    var end := i + |PairText(m)|;
    AtConcat(text, i, PairText(m), m.after + ([','] + rest));
    BlanksSkipped(text, end, m.after, ',', rest);
    AtConcat(text, end, m.after, [','] + rest);
    AtConcat(text, end, m.after, [',']);
    AtConcat(text, end + |m.after|, [','], rest);
    StopsThere(m.value, text, end, m.after, ',');
    PairReads(text, i, m);
  }

  lemma {:induction false} MembersGoOn(text: string, i: nat, m: Members, blank: string, entries: map<Key, Value>)
    requires MembersOk(m) && Blank(blank) && i < |text| && At(text, i, MembersSoFar(m, blank))
    requires Settled(text, i + |MembersSoFar(m, blank)|)
    ensures MembersGive(text, i + |MembersSoFar(m, blank)|, MembersFrom(text, i, entries))
    decreases m
  {
    hide Meaning, StringMeaning, PairText, JsonOk, PartsOk, Assign, MembersFrom;
    var comma := i + |PairText(m)| + |m.after|;
    var entries' := Assign(entries, Key.Str(StringMeaning(m.key)), Meaning(m.value));
    if m.Member? {
      var rest := m.rest.before + MembersSoFar(m.rest, blank);
      MembersStep(text, i, m, rest, entries);
      MembersBeginSoFar(text, comma + 1, m.rest, blank);
      MembersGoOn(text, comma + 1 + |m.rest.before|, m.rest, blank, entries');
    } else {
      MembersStep(text, i, m, blank, entries);
      BlanksTo(text, comma + 1, blank);
    }
  }

  lemma MembersBeginSoFar(text: string, i: nat, m: Members, blank: string)
    requires MembersOk(m) && At(text, i, m.before + MembersSoFar(m, blank))
    ensures var start := i + |m.before|;
            && start < |text| && text[start] == '"' && SkipWhitespace(text, i) == start
            && At(text, start, MembersSoFar(m, blank))
  {
    AtConcat(text, i, m.before, MembersSoFar(m, blank));
    var t := MembersSoFar(m, blank);
    assert t[0] == PairText(m)[0] == StringText(m.key)[0] == '"';
    assert t == [t[0]] + t[1..];
    BlanksSkipped(text, i, m.before, t[0], t[1..]);
  }

  lemma ObjectWaits(text: string, i: nat, blank: string)
    requires Blank(blank) && At(text, i, "{" + blank)
    requires var e := i + 1 + |blank|; Settled(text, e) && !CharIs(text, e, '}')
    ensures InObject(text, i, i + 1 + |blank|)
  {
    hide MembersFrom;
    AtConcat(text, i, "{", blank);
    BlanksTo(text, i + 1, blank);
    assert text[i] == '{';
    assert OneAt(text, i) == MembersFrom(text, i + 1 + |blank|, map[]);
  }

  lemma ObjectWaitsAgain(text: string, i: nat, m: Members, blank: string)
    requires MembersOk(m) && Blank(blank) && At(text, i, "{" + (m.before + MembersSoFar(m, blank)))
    requires Settled(text, i + 1 + |m.before| + |MembersSoFar(m, blank)|)
    ensures InObject(text, i, i + 1 + |m.before| + |MembersSoFar(m, blank)|)
  {
    hide MembersFrom, MembersSoFar;
    AtConcat(text, i, "{", m.before + MembersSoFar(m, blank));
    MembersBeginSoFar(text, i + 1, m, blank);
    assert text[i] == '{';
    assert OneAt(text, i) == MembersFrom(text, i + 1 + |m.before|, map[]);
    MembersGoOn(text, i + 1 + |m.before|, m, blank, map[]);
  }

  /** What an object that waits for a member fails with: the text ends; there is no key; the key is not
      followed by a colon; the value fails; the value is followed by neither comma nor brace. */
  lemma ObjectErrors(text: string, i: nat, e: nat)
    requires InObject(text, i, e)
    ensures e >= |text| ==> OneAt(text, i) == Failure(UnclosedBrace)
    ensures e < |text| && text[e] != '"' ==> OneAt(text, i) == Failure(ExpectedQuote)
    ensures e < |text| && StringAt(text, e).Failure? ==> OneAt(text, i) == Failure(StringAt(text, e).error)
    ensures e < |text| && StringAt(text, e).Success? ==>
              var colon := SkipWhitespace(text, StringAt(text, e).value.next);
              && (!CharIs(text, colon, ':') ==> OneAt(text, i) == Failure(ExpectedColon))
              && (CharIs(text, colon, ':') ==>
                    && (OneAt(text, colon + 1).Failure? ==> OneAt(text, i) == Failure(OneAt(text, colon + 1).error))
                    && (OneAt(text, colon + 1).Success? ==>
                          var behind := SkipWhitespace(text, OneAt(text, colon + 1).value.next);
                          !CharIs(text, behind, ',') && !CharIs(text, behind, '}') ==>
                            OneAt(text, i) == Failure(ExpectedCommaOrBrace)))
  {
    var entries :| OneAt(text, i) == MembersFrom(text, e, entries);
    if e < |text| {
      MemberErrors(text, e);
    }
    hide OneAt, MemberAt, StringFrom, SkipWhitespace;
  }

  lemma MemberErrors(text: string, e: nat)
    requires e < |text|
    ensures text[e] != '"' ==> MemberAt(text, e) == Failure(ExpectedQuote)
    ensures StringAt(text, e).Failure? ==> MemberAt(text, e) == Failure(StringAt(text, e).error)
    ensures StringAt(text, e).Success? ==>
              var colon := SkipWhitespace(text, StringAt(text, e).value.next);
              && (!CharIs(text, colon, ':') ==> MemberAt(text, e) == Failure(ExpectedColon))
              && (CharIs(text, colon, ':') ==>
                    && (OneAt(text, colon + 1).Failure? ==>
                          MemberAt(text, e) == Failure(OneAt(text, colon + 1).error))
                    && (OneAt(text, colon + 1).Success? ==>
                          && MemberAt(text, e).Success?
                          && MemberAt(text, e).value.next == SkipWhitespace(text, OneAt(text, colon + 1).value.next)))
  {
    if StringAt(text, e).Success? {
      SkipsOnce(text, SkipWhitespace(text, StringAt(text, e).value.next) + 1);
    }
    hide OneAt, StringFrom, SkipWhitespace;
  }

  lemma SkipsOnce(text: string, i: nat)
    ensures OneAt(text, SkipWhitespace(text, i)) == OneAt(text, i)
  {
  }

  // ---------- Where no value begins, and strings that do not end ----------

  /** No value begins with the character. */
  ghost predicate NoKind(c: char) { forall j :: !Kind(j, c) }

  /** Behind blanks the text ends, or a character stands that begins no value. */
  lemma NoValue(text: string, i: nat, blank: string)
    requires Blank(blank) && At(text, i, blank) && Settled(text, i + |blank|)
    ensures i + |blank| == |text| ==> OneAt(text, i) == Failure(UnexpectedEnd)
    ensures i + |blank| < |text| && NoKind(text[i + |blank|]) ==> OneAt(text, i) == Failure(CannotParse)
    ensures CharIs(text, i + |blank|, '-') && !DigitAt(text, i + |blank| + 1) ==>
              OneAt(text, i) == Failure(ExpectedNumber)
  {
    BlanksTo(text, i, blank);
    var e := i + |blank|;
    if e < |text| && NoKind(text[e]) {
      var c := text[e];
      assert !Kind(JNull, c) && !Kind(JTrue, c) && !Kind(JFalse, c) && !Kind(JString([]), c);
      assert !Kind(JNumber(Numeral(false, "0", "", "")), c) && !Kind(JNoItems(""), c) && !Kind(JNoMembers(""), c);
    }
  }

  /** A string whose pieces reach the end of the text is not closed. */
  lemma {:induction false} NeverClosed(text: string, i: nat, value: string)
    requires i <= |text| && (forall k :: i <= k < |text| ==> text[k] != '"' && text[k] != '\\')
    ensures StringFrom(text, i, value) == Failure(UnclosedString)
    decreases |text| - i
  {
    if i < |text| {
      NeverClosed(text, i + 1, value + [text[i]]);
    }
  }

  /** Only the checks in front of decoding give these errors. */
  predicate Inner<T>(r: Result<T, DecodeError>) {
    r.Failure? ==> r.error != Html && r.error != NotUtf8
  }

  lemma {:induction false} StringInner(text: string, i: nat, value: string)
    ensures Inner(StringFrom(text, i, value))
    decreases |text| - i
  {
    if i < |text| && text[i] != '"' && StringStep(text, i).Success? {
      StringInner(text, StringStep(text, i).value.next, value + StringStep(text, i).value.value);
    }
  }

  lemma {:induction false} ValueInner(text: string, i: nat)
    ensures Inner(OneAt(text, i))
    decreases Left(text, i), 2
  {
    hide StringFrom, ItemsFrom, MembersFrom, SkipWhitespace;
    var k := SkipWhitespace(text, i);
    StringInner(text, k + 1, "");
    if CharIs(text, k, '[') && !CharIs(text, SkipWhitespace(text, k + 1), ']') {
      ItemsInner(text, SkipWhitespace(text, k + 1), 1, map[]);
    }
    if CharIs(text, k, '{') && !CharIs(text, SkipWhitespace(text, k + 1), '}') {
      MembersInner(text, SkipWhitespace(text, k + 1), map[]);
    }
  }

  lemma {:induction false} ItemsInner(text: string, i: nat, index: nat, entries: map<Key, Value>)
    ensures Inner(ItemsFrom(text, i, index, entries))
    decreases Left(text, i), 3
  {
    hide OneAt, SkipWhitespace;
    if i < |text| {
      ValueInner(text, i);
      if OneAt(text, i).Success? {
        var end := SkipWhitespace(text, OneAt(text, i).value.next);
        if CharIs(text, end, ',') {
          ItemsInner(text, SkipWhitespace(text, end + 1), index + 1,
                     Assign(entries, Num(index), OneAt(text, i).value.value));
        }
      }
    }
  }

  lemma {:induction false} MembersInner(text: string, i: nat, entries: map<Key, Value>)
    ensures Inner(MembersFrom(text, i, entries))
    decreases Left(text, i), 1
  {
    hide OneAt, SkipWhitespace, StringFrom;
    if i < |text| {
      StringInner(text, i + 1, "");
      if StringAt(text, i).Success? {
        var colon := SkipWhitespace(text, StringAt(text, i).value.next);
        ValueInner(text, SkipWhitespace(text, colon + 1));
        var m := MemberAt(text, i);
        if m.Success? && CharIs(text, m.value.next, ',') {
          MembersInner(text, SkipWhitespace(text, m.value.next + 1),
                       Assign(entries, Key.Str(m.value.value.0), m.value.value.1));
        }
      }
    }
  }

  /** A text is taken for HTML exactly when its first character behind space is an opening angle bracket,
      and for text in another encoding exactly when it is not, and one of its first two places holds NUL. */
  lemma FirstChecks(text: string)
    ensures Decode(text) == Failure(Html) <==> exists e :: FirstSolid(text, e) && text[e] == '<'
    ensures Decode(text) == Failure(NotUtf8) <==>
              && (exists e :: FirstSolid(text, e) && text[e] != '<')
              && (text[0] == '\0' || (|text| >= 2 && text[1] == '\0'))
  {
    hide OneAt;
    FirstBehindSpace(text, 0);
    ValueInner(text, 0);
    var e := SkipSpace(text, 0);
    assert e < |text| ==> FirstSolid(text, e);
    assert forall f :: FirstSolid(text, f) ==> f == e;
  }

  /** All characters in front of `e` are space, and the one there is not. */
  ghost predicate FirstSolid(text: string, e: int) {
    0 <= e < |text| && !IsSpace(text[e]) && forall k :: 0 <= k < e ==> IsSpace(text[k])
  }

  lemma {:induction false} FirstBehindSpace(text: string, i: nat)
    requires i <= |text|
    ensures var e := SkipSpace(text, i);
            i <= e <= |text| && (e < |text| ==> !IsSpace(text[e])) && forall k :: i <= k < e ==> IsSpace(text[k])
    decreases |text| - i
  {
    if i < |text| && IsSpace(text[i]) {
      FirstBehindSpace(text, i + 1);
    }
  }
}
