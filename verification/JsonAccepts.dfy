/** `decode` reads nothing but texts of the grammar: whenever it succeeds, the text has a structure that
    means just what was decoded. */
module JsonAccepts {
  import opened Wrappers
  import opened Sequences
  import opened JsonStrings
  import opened LuaValues
  import opened JsonDecoder
  import opened JsonLayout
  import opened JsonGrammar
  import opened JsonReads

  // ---------- Slices ----------

  lemma {:induction false} AtOwn(text: string, i: nat, k: nat)
    requires i <= k <= |text|
    ensures At(text, i, text[i..k])
    decreases k - i
  {
    if i < k {
      assert text[i..k][1..] == text[i + 1..k];
      AtOwn(text, i + 1, k);
    }
  }

  lemma {:induction false} BlanksFound(text: string, i: nat)
    requires i <= |text|
    ensures var k := SkipWhitespace(text, i); i <= k <= |text| && Blank(text[i..k]) && At(text, i, text[i..k])
    decreases |text| - i
  {
    var k := SkipWhitespace(text, i);
    if i < k {
      BlanksFound(text, i + 1);
      assert text[i..k] == [text[i]] + text[i + 1..k];
    }
    AtOwn(text, i, k);
  }

  lemma {:induction false} DigitsFound(text: string, i: nat)
    requires i <= |text|
    ensures !DigitAt(text, SkipDigits(text, i))
    decreases |text| - i
  {
    if i < |text| && IsDigit(text[i]) {
      DigitsFound(text, i + 1);
    }
  }

  // ---------- Numbers ----------

  lemma IntegerFound(text: string, i: nat)
    requires i <= |text| && IntegerPart(text, i).Some?
    ensures var minus, end := CharIs(text, i, '-'), IntegerPart(text, i).value;
            var first := i + |Sign(minus)|;
            && first < end <= |text| && IsInteger(text[first..end]) && At(text, i, Sign(minus))
            && (text[first..end] != "0" ==> !DigitAt(text, end))
  {
    var minus, end := CharIs(text, i, '-'), IntegerPart(text, i).value;
    var first := i + |Sign(minus)|;
    if text[first] == '0' {
      assert text[first..end] == "0";
    } else {
      DigitsFound(text, first + 1);
      assert text[first..end] == [text[first]] + text[first + 1..end];
    }
  }

  lemma FractionFound(text: string, i: nat)
    requires i <= |text|
    ensures var end := DecimalPart(text, i);
            && IsFraction(text[i..end])
            && if end > i then !DigitAt(text, end) else !(CharIs(text, i, '.') && DigitAt(text, i + 1))
  {
    var end := DecimalPart(text, i);
    if CharIs(text, i, '.') && DigitAt(text, i + 1) {
      DigitsFound(text, i + 1);
      assert text[i..end][1..] == text[i + 1..end];
      assert SkipDigits(text, i + 1) >= i + 2;
    }
  }

  lemma ExponentFound(text: string, i: nat)
    requires i <= |text|
    ensures var end := ExponentPart(text, i);
            IsExponent(text[i..end]) && if end > i then !DigitAt(text, end) else !ExponentStarts(text, i)
  {
    var end := ExponentPart(text, i);
    if ExponentStarts(text, i) {
      var digits := if CharIs(text, i + 1, '+') || CharIs(text, i + 1, '-') then i + 2 else i + 1;
      DigitsFound(text, digits);
      assert SkipDigits(text, digits) >= digits + 1;
      assert text[i..end][digits - i..] == text[digits..end];
    }
  }

  lemma NumeralFound(text: string, i: nat) returns (n: Numeral)
    requires i <= |text| && NumberAt(text, i).Success?
    ensures IsNumeral(n) && At(text, i, NumeralText(n))
    ensures var end := i + |NumeralText(n)|;
            NumberAt(text, i) == Success(Parse(NumeralMeaning(n), end)) && NumeralStops(n, text, end)
  {
    hide IntegerPart, DecimalPart, ExponentPart, IsInteger, IsFraction, IsExponent, ExponentStarts, At;
    var minus, a := CharIs(text, i, '-'), IntegerPart(text, i).value;
    var b := DecimalPart(text, a);
    var c := ExponentPart(text, b);
    var first := i + |Sign(minus)|;
    IntegerFound(text, i);
    FractionFound(text, a);
    ExponentFound(text, b);
    n := Numeral(minus, text[first..a], text[a..b], text[b..c]);
    NumeralParts(text, i, n, first, a, b, c);
    hide Sign, NumeralText;
    NumeralReads(text, i, n);
  }

  lemma NumeralParts(text: string, i: nat, n: Numeral, first: nat, a: nat, b: nat, c: nat)
    requires first == i + |Sign(n.minus)| && At(text, i, Sign(n.minus)) && first <= a <= b <= c <= |text|
    requires n.integer == text[first..a] && n.fraction == text[a..b] && n.exponent == text[b..c]
    ensures At(text, i, NumeralText(n)) && i + |NumeralText(n)| == c
  {
    AtOwn(text, first, a);
    AtOwn(text, a, b);
    AtOwn(text, b, c);
    AtConcat(text, i, Sign(n.minus), n.integer);
    AtConcat(text, i, Sign(n.minus) + n.integer, n.fraction);
    AtConcat(text, i, Sign(n.minus) + n.integer + n.fraction, n.exponent);
  }

  // ---------- Strings ----------

  lemma HexFound(text: string, i: nat)
    requires HexAt(text, i).Some?
    ensures i + 6 <= |text| && HexEscape(text[i..i + 6], HexAt(text, i).value)
  {
  }

  lemma PairFound(high: nat, low: nat)
    requires 0xD800 <= high <= 0xDBFF && 0xDC00 <= low <= 0xDFFF
    ensures var n := 0x2400 + (high - 0xD800) * 0x400 + low;
            0x10000 <= n <= 0x10FFFF && HighSurrogate(n) == high && LowSurrogate(n) == low
  {
    var n := 0x2400 + (high - 0xD800) * 0x400 + low;
    assert n - 0x10000 == (high - 0xD800) * 0x400 + (low - 0xDC00);
    assert (n - 0x10000) / 0x400 == high - 0xD800;
  }

  /** The piece that one round of the loop has read. */
  function PartFound(text: string, i: nat): Part
    requires i < |text| && StringStep(text, i).Success?
  {
    if text[i] != '\\' then Raw(text[i])
    else match HexAt(text, i)
      case None => Short(text[i + 1])
      case Some(n) =>
        if 0xD800 <= n <= 0xDBFF && LowSurrogateAt(text, i + 6).Some? then
          PairFound(n, LowSurrogateAt(text, i + 6).value);
          Code(text[i..i + 12], 0x2400 + (n - 0xD800) * 0x400 + LowSurrogateAt(text, i + 6).value)
        else if Surrogate(n) then Alone(text[i..i + 6], n)
        else Code(text[i..i + 6], n)
  }

  lemma StepFound(text: string, i: nat, after: string)
    requires i < |text| && text[i] != '"' && StringStep(text, i).Success?
    requires At(text, StringStep(text, i).value.next, after)
    ensures var p, step := PartFound(text, i), StringStep(text, i).value;
            PartOk(p, after) && PartText(p) == text[i..step.next] && PartMeaning(p) == step.value
  {
    hide UnicodeCodepointAsUtf8, HexEscape, EscapeOf;
    match HexAt(text, i)
    case None => ShortFound(text, i, after);
    case Some(n) => CodeFound(text, i, n, after);
  }

  lemma ShortFound(text: string, i: nat, after: string)
    requires i < |text| && text[i] != '"' && StringStep(text, i).Success? && HexAt(text, i) == None
    requires At(text, StringStep(text, i).value.next, after)
    ensures var p, step := PartFound(text, i), StringStep(text, i).value;
            PartOk(p, after) && PartText(p) == text[i..step.next] && PartMeaning(p) == step.value
  {
    if text[i] == '\\' && text[i + 1] == 'u' && FourHex(after) {
      AtIndex(text, i + 2, after, 0);
      AtIndex(text, i + 2, after, 1);
      AtIndex(text, i + 2, after, 2);
      AtIndex(text, i + 2, after, 3);
    }
  }

  lemma CodeFound(text: string, i: nat, n: nat, after: string)
    requires i < |text| && HexAt(text, i) == Some(n) && StringStep(text, i).Success?
    requires At(text, StringStep(text, i).value.next, after)
    ensures var p, step := PartFound(text, i), StringStep(text, i).value;
            PartOk(p, after) && PartText(p) == text[i..step.next] && PartMeaning(p) == step.value
  {
    hide UnicodeCodepointAsUtf8, HexEscape, HighSurrogate, LowSurrogate;
    var low := LowSurrogateAt(text, i + 6);
    HexFound(text, i);
    if 0xD800 <= n <= 0xDBFF && low.Some? {
      PairFound(n, low.value);
      HexFound(text, i + 6);
      assert text[i..i + 12][..6] == text[i..i + 6] && text[i..i + 12][6..] == text[i + 6..i + 12];
    } else if Surrogate(n) {
      Utf8IsWellFormed(n);
      if n <= 0xDBFF {
        NoLowFound(text, i + 6, after);
      }
    }
  }

  lemma NoLowFound(text: string, i: nat, after: string)
    requires LowSurrogateAt(text, i) == None && At(text, i, after)
    ensures !LowFirst(after)
  {
    if |after| >= 6 {
      forall m | 0 <= m < 6 ensures i + m < |text| && text[i + m] == after[m] {
        AtIndex(text, i, after, m);
      }
      forall n | HexEscape(after[..6], n) ensures !(0xDC00 <= n <= 0xDFFF) {
        assert HexAt(text, i) == Some(n);
      }
    }
  }

  lemma {:induction false} PartsFound(text: string, i: nat, value: string) returns (parts: seq<Part>)
    requires StringFrom(text, i, value).Success?
    ensures PartsOk(parts) && At(text, i, PartsText(parts) + "\"")
    ensures StringFrom(text, i, value) == Success(Parse(value + StringMeaning(parts), i + |PartsText(parts)| + 1))
    decreases |text| - i
  {
    hide StringStep, PartOk, PartMeaning, PartText, PartFound;
    if text[i] == '"' {
      parts := [];
      assert value + "" == value;
    } else {
      var step := StringStep(text, i).value;
      var rest := PartsFound(text, step.next, value + step.value);
      var p := PartFound(text, i);
      StepFound(text, i, PartsText(rest) + "\"");
      parts := [p] + rest;
      assert parts[1..] == rest;
      PartsJoin(text, i, step.next, PartText(p), PartsText(rest));
      Assoc(value, PartMeaning(p), StringMeaning(rest));
    }
  }

  lemma PartsJoin(text: string, i: nat, k: nat, part: string, rest: string)
    requires i <= k <= |text| && part == text[i..k] && At(text, k, rest + "\"")
    ensures At(text, i, (part + rest) + "\"")
  {
    AtOwn(text, i, k);
    AtConcat(text, i, part, rest + "\"");
    assert (part + rest) + "\"" == part + (rest + "\"");
  }

  lemma StringFound(text: string, i: nat) returns (parts: seq<Part>)
    requires StringAt(text, i).Success?
    ensures PartsOk(parts) && At(text, i, StringText(parts))
    ensures StringAt(text, i) == Success(Parse(StringMeaning(parts), i + |StringText(parts)|))
  {
    hide StringFrom, PartsOk, PartsText, StringMeaning;
    parts := PartsFound(text, i + 1, "");
    assert "" + StringMeaning(parts) == StringMeaning(parts);
    AtConcat(text, i, "\"", PartsText(parts) + "\"");
  }

  // ---------- Values ----------

  /** The text at `i` holds the value, and decoding there gives what it means. */
  ghost predicate Holds(text: string, i: nat, j: Json) {
    && JsonOk(j) && At(text, i, JText(j)) && Stops(j, text, i + |JText(j)|)
    && OneAt(text, i) == Success(Parse(Meaning(j), i + |JText(j)|))
  }

  lemma HeldReads(text: string, i: nat, j: Json)
    requires JsonOk(j) && At(text, i, JText(j)) && Stops(j, text, i + |JText(j)|)
    ensures Holds(text, i, j)
  {
    hide JsonOk, Meaning, OneAt, JText, Stops;
    ValueReads(text, i, j);
  }

  /** Blanks in front of a value are skipped, and it is the same value behind them. */
  lemma SkippedTo(text: string, i: nat)
    requires OneAt(text, i).Success?
    ensures var k := SkipWhitespace(text, i);
            && i <= k < |text| && SkipWhitespace(text, k) == k && OneAt(text, k) == OneAt(text, i)
            && Blank(text[i..k]) && At(text, i, text[i..k])
  {
    hide NumberAt, StringAt, ObjectAt, ArrayAt, LiteralAt;
    BlanksFound(text, i);
  }

  lemma {:induction false} ValueFound(text: string, i: nat) returns (j: Json)
    requires OneAt(text, i).Success? && SkipWhitespace(text, i) == i && i < |text|
    ensures Holds(text, i, j)
    decreases Left(text, i), 2
  {
    hide NumberAt, StringAt, ItemsFrom, MembersFrom, NumeralStops, PartsOk, StringText, NumeralText, Meaning, Holds;
    if text[i] == '"' {
      var parts := StringFound(text, i);
      j := JString(parts);
      HeldReads(text, i, j);
    } else if text[i] == '-' || IsDigit(text[i]) {
      var n := NumeralFound(text, i);
      j := JNumber(n);
      HeldReads(text, i, j);
    } else if text[i] == '{' {
      j := ObjectFound(text, i);
    } else if text[i] == '[' {
      j := ArrayFound(text, i);
    } else {
      j := if At(text, i, "true") then JTrue else if At(text, i, "false") then JFalse else JNull;
      HeldReads(text, i, j);
    }
  }

  lemma {:induction false} ArrayFound(text: string, start: nat) returns (j: Json)
    requires CharIs(text, start, '[') && OneAt(text, start).Success?
    ensures Holds(text, start, j)
    decreases Left(text, start), 1
  {
    hide ItemsFrom, Holds, At, OneAt, SkipWhitespace, Blank;
    assert OneAt(text, start) == ArrayAt(text, start) by { hide *; OpensArray(text, start); }
    var i := SkipWhitespace(text, start + 1);
    BlanksFound(text, start + 1);
    var blank := text[start + 1..i];
    if CharIs(text, i, ']') {
      j := JNoItems(blank);
      AtChar(text, i, ']');
      Bracketed(text, start, i, '[', "]");
    } else {
      SkipAgain(text, start + 1);
      var items := ItemsFound(text, i, 1, map[]);
      var items' := items.(before := blank);
      j := JItems(items');
      SameItems(items, blank);
      Bracketed(text, start, i, '[', ItemsText(items));
    }
    HeldReads(text, start, j);
  }

  lemma OpensArray(text: string, i: nat)
    requires CharIs(text, i, '[')
    ensures OneAt(text, i) == ArrayAt(text, i)
  {
  }

  lemma OpensObject(text: string, i: nat)
    requires CharIs(text, i, '{')
    ensures OneAt(text, i) == ObjectAt(text, i)
  {
  }

  lemma SkipAgain(text: string, i: nat)
    requires i <= |text|
    ensures SkipWhitespace(text, SkipWhitespace(text, i)) == SkipWhitespace(text, i) <= |text|
  {
  }

  lemma AtChar(text: string, i: nat, c: char)
    requires CharIs(text, i, c)
    ensures At(text, i, [c])
  {
  }

  /** A bracket, blanks, and what follows them. */
  lemma Bracketed(text: string, start: nat, i: nat, open: char, rest: string)
    requires CharIs(text, start, open) && start < i <= |text| && At(text, i, rest)
    ensures At(text, start, [open] + (text[start + 1..i] + rest))
  {
    AtOwn(text, start + 1, i);
    AtConcat(text, start + 1, text[start + 1..i], rest);
    AtConcat(text, start, [open], text[start + 1..i] + rest);
  }

  lemma SameItems(items: Items, blank: string)
    requires ItemsOk(items) && Blank(blank)
    ensures ItemsOk(items.(before := blank)) && ItemsText(items.(before := blank)) == ItemsText(items)
  {
  }

  lemma SameMembers(m: Members, blank: string)
    requires MembersOk(m) && Blank(blank)
    ensures MembersOk(m.(before := blank)) && MembersText(m.(before := blank)) == MembersText(m)
  {
  }

  lemma {:induction false} ItemsFound(text: string, i: nat, index: nat, entries: map<Key, Value>) returns (items: Items)
    requires ItemsFrom(text, i, index, entries).Success? && SkipWhitespace(text, i) == i
    ensures ItemsOk(items) && At(text, i, ItemsText(items)) && items.before == ""
    decreases Left(text, i), 3
  {
    hide OneAt, Holds, Meaning, At, SkipWhitespace, Assign, JText, Blank, JsonOk, ItemsText, ItemsOk;
    var value := OneAt(text, i).value;
    var end := SkipWhitespace(text, value.next);
    var item := ValueFound(text, i);
    HeldParts(text, i, item);
    BlanksFound(text, value.next);
    var after := text[value.next..end];
    if CharIs(text, end, ']') {
      items := LastItem("", item, after);
      LastJoins(text, i, item, after, end);
    } else {
      var next := SkipWhitespace(text, end + 1);
      BlanksFound(text, end + 1);
      SkipAgain(text, end + 1);
      var rest := ItemsFound(text, next, index + 1, Assign(entries, Num(index), value.value));
      var before := text[end + 1..next];
      items := Item("", item, after, rest.(before := before));
      ItemJoins(text, i, item, after, end, next, rest);
    }
  }

  lemma LastJoins(text: string, i: nat, item: Json, after: string, end: nat)
    requires JsonOk(item) && At(text, i, JText(item)) && Blank(after) && At(text, i + |JText(item)|, after)
    requires end == i + |JText(item)| + |after| && CharIs(text, end, ']')
    ensures ItemsOk(LastItem("", item, after)) && At(text, i, ItemsText(LastItem("", item, after)))
  {
    hide At, JText, JsonOk;
    AtChar(text, end, ']');
    Followed(text, i, JText(item), after, end, "]");
  }

  lemma ItemJoins(text: string, i: nat, item: Json, after: string, end: nat, next: nat, rest: Items)
    requires JsonOk(item) && At(text, i, JText(item)) && Blank(after) && At(text, i + |JText(item)|, after)
    requires end == i + |JText(item)| + |after| && CharIs(text, end, ',') && end < next <= |text|
    requires ItemsOk(rest) && At(text, next, ItemsText(rest)) && Blank(text[end + 1..next])
    ensures var items := Item("", item, after, rest.(before := text[end + 1..next]));
            ItemsOk(items) && At(text, i, ItemsText(items))
  {
    hide At, JText, JsonOk;
    SameItems(rest, text[end + 1..next]);
    Bracketed(text, end, next, ',', ItemsText(rest));
    Followed(text, i, JText(item), after, end, "," + (text[end + 1..next] + ItemsText(rest)));
  }

  lemma HeldParts(text: string, i: nat, j: Json)
    requires Holds(text, i, j)
    ensures JsonOk(j) && At(text, i, JText(j)) && OneAt(text, i).Success?
    ensures OneAt(text, i).value == Parse(Meaning(j), i + |JText(j)|)
  {
  }

  lemma Followed(text: string, i: nat, part: string, after: string, end: nat, rest: string)
    requires At(text, i, part) && At(text, i + |part|, after) && end == i + |part| + |after| && At(text, end, rest)
    ensures At(text, i, part + (after + rest))
  {
    AtConcat(text, i + |part|, after, rest);
    AtConcat(text, i, part, after + rest);
  }

  lemma {:induction false} ObjectFound(text: string, start: nat) returns (j: Json)
    requires CharIs(text, start, '{') && OneAt(text, start).Success?
    ensures Holds(text, start, j)
    decreases Left(text, start), 1
  {
    hide MembersFrom, Holds, At, OneAt, SkipWhitespace, Blank;
    assert OneAt(text, start) == ObjectAt(text, start) by { hide *; OpensObject(text, start); }
    var i := SkipWhitespace(text, start + 1);
    BlanksFound(text, start + 1);
    var blank := text[start + 1..i];
    if CharIs(text, i, '}') {
      j := JNoMembers(blank);
      AtChar(text, i, '}');
      Bracketed(text, start, i, '{', "}");
    } else {
      SkipAgain(text, start + 1);
      var members := MembersFound(text, i, map[]);
      var members' := members.(before := blank);
      j := JMembers(members');
      SameMembers(members, blank);
      Bracketed(text, start, i, '{', MembersText(members));
    }
    HeldReads(text, start, j);
  }

  lemma {:induction false} MembersFound(text: string, i: nat, entries: map<Key, Value>) returns (m: Members)
    requires MembersFrom(text, i, entries).Success? && SkipWhitespace(text, i) == i
    ensures MembersOk(m) && At(text, i, MembersText(m)) && m.before == ""
    decreases Left(text, i), 1
  {
    hide MemberAt, PairText, PartsOk, JsonOk, At, SkipWhitespace, Assign, Blank;
    var pair := MemberAt(text, i).value;
    m := MemberFound(text, i);
    var end := pair.next;
    if CharIs(text, end, '}') {
      AtChar(text, end, '}');
      Followed(text, i, PairText(m), m.after, end, "}");
    } else {
      var next := SkipWhitespace(text, end + 1);
      BlanksFound(text, end + 1);
      SkipAgain(text, end + 1);
      var rest := MembersFound(text, next, Assign(entries, Key.Str(pair.value.0), pair.value.1));
      var rest' := rest.(before := text[end + 1..next]);
      SameMembers(rest, text[end + 1..next]);
      var last := m;
      m := Member("", last.key, last.beforeColon, last.afterColon, last.value, last.after, rest');
      SamePair(last, rest');
      Bracketed(text, end, next, ',', MembersText(rest));
      Followed(text, i, PairText(m), m.after, end, "," + (text[end + 1..next] + MembersText(rest)));
    }
  }

  lemma SamePair(m: Members, rest: Members)
    requires m.LastMember?
    ensures PairText(Member(m.before, m.key, m.beforeColon, m.afterColon, m.value, m.after, rest)) == PairText(m)
  {
  }

  /** One member, as if it were the last. */
  lemma {:induction false} MemberFound(text: string, i: nat) returns (m: Members)
    requires i < |text| && MemberAt(text, i).Success?
    ensures m.LastMember? && MembersOk(m) && m.before == "" && At(text, i, PairText(m))
    ensures var end := MemberAt(text, i).value.next;
            end == i + |PairText(m)| + |m.after| && At(text, i + |PairText(m)|, m.after)
    decreases Left(text, i), 0
  {
    hide OneAt, StringAt, Holds, Meaning, PartsOk, JsonOk, StringMeaning, At, SkipWhitespace, JText, StringText, Blank,
      PairText, MembersOk;
    var key := StringAt(text, i).value;
    var parts := StringFound(text, i);
    var colon := SkipWhitespace(text, key.next);
    BlanksFound(text, key.next);
    var start := SkipWhitespace(text, colon + 1);
    BlanksFound(text, colon + 1);
    SkipAgain(text, colon + 1);
    var value := ValueFound(text, start);
    HeldParts(text, start, value);
    var end := start + |JText(value)|;
    BlanksFound(text, end);
    var after := text[end..SkipWhitespace(text, end)];
    m := LastMember("", parts, text[key.next..colon], text[colon + 1..start], value, after);
    PairJoins(text, i, m, colon, start);
  }

  lemma PairJoins(text: string, i: nat, m: Members, colon: nat, start: nat)
    requires m.LastMember? && m.before == "" && PartsOk(m.key) && Blank(m.beforeColon) && Blank(m.afterColon)
    requires JsonOk(m.value) && Blank(m.after) && At(text, i, StringText(m.key))
    requires At(text, i + |StringText(m.key)|, m.beforeColon) && CharIs(text, colon, ':')
    requires colon == i + |StringText(m.key)| + |m.beforeColon| && colon < start <= |text|
    requires m.afterColon == text[colon + 1..start] && At(text, start, JText(m.value))
    ensures MembersOk(m) && At(text, i, PairText(m)) && i + |PairText(m)| == start + |JText(m.value)|
  {
    hide At, JText, JsonOk, PartsOk, StringText;
    Bracketed(text, colon, start, ':', JText(m.value));
    Followed(text, i, StringText(m.key), m.beforeColon, colon, ":" + (m.afterColon + JText(m.value)));
  }

  // ---------- Whole texts ----------

  /** A value stands in the text at `i`, and what follows does not continue it. */
  ghost predicate Stands(text: string, i: nat, j: Json) {
    JsonOk(j) && At(text, i, JText(j)) && Stops(j, text, i + |JText(j)|)
  }

  /** The text is blanks, a value that means `v`, and anything that does not continue it. */
  ghost predicate Means(text: string, v: Value) {
    exists i: nat, j :: i <= |text| && Blank(text[..i]) && Stands(text, i, j) && Meaning(j) == v
  }

  lemma ValueMeans(text: string)
    requires OneAt(text, 0).Success?
    ensures Means(text, OneAt(text, 0).value.value)
  {
    hide OneAt, Meaning, JsonOk, JText, Stops;
    SkippedTo(text, 0);
    var k := SkipWhitespace(text, 0);
    var j := ValueFound(text, k);
    assert text[0..k] == text[..k];
    assert Stands(text, k, j);
  }

  /** Nothing but the six characters that Lua takes for space. */
  predicate AllSpace(text: string) {
    forall k :: 0 <= k < |text| ==>
      || text[k] == ' ' || text[k] == '\n' || text[k] == '\r' || text[k] == '\t'
      || text[k] == '\U{b}' || text[k] == '\U{c}'
  }

  lemma {:induction false} SpaceSkipped(text: string, i: nat)
    requires i <= |text|
    ensures SkipSpace(text, i) >= |text| <==> AllSpace(text[i..])
    ensures SkipSpace(text, i) <= |text|
    decreases |text| - i
  {
    if i < |text| {
      SpaceSkipped(text, i + 1);
      assert text[i..] == [text[i]] + text[i + 1..];
    }
  }

  lemma StandsDecodes(text: string, i: nat, j: Json)
    requires i <= |text| && Blank(text[..i]) && Stands(text, i, j)
    ensures SkipSpace(text, 0) < |text| && text[SkipSpace(text, 0)] != '<' && text[0] != '\0'
    ensures OneAt(text, 0).Success? && OneAt(text, 0).value.value == Meaning(j)
  {
    hide OneAt, JsonOk, JText, Stops, SkipSpace, Meaning;
    AtOwn(text, 0, i);
    assert text[0..i] == text[..i];
    ChecksPass(text, text[..i], j);
    AtConcat(text, 0, text[..i], JText(j));
    OneAtSkips(text, 0, text[..i], j);
    ValueReads(text, i, j);
  }

  /**
   What `decode` accepts, exactly. A text of nothing but space is nil. Any other text decodes to `v` if and
   only if it begins with a text of the grammar that means `v` and is not continued by what follows, and
   its second character is not NUL.
   */
  lemma DecodesIff(text: string, v: Value)
    ensures Decode(text) == Success(v) <==>
              if AllSpace(text) then v == VNil else Means(text, v) && !(|text| >= 2 && text[1] == '\0')
  {
    hide OneAt, Means, AllSpace, SkipSpace;
    SpaceSkipped(text, 0);
    assert text[0..] == text;
    if Means(text, v) {
      MeansDecodes(text, v);
    }
    if OneAt(text, 0).Success? {
      ValueMeans(text);
    }
  }

  lemma MeansDecodes(text: string, v: Value)
    requires Means(text, v)
    ensures SkipSpace(text, 0) < |text| && text[SkipSpace(text, 0)] != '<' && text[0] != '\0'
    ensures OneAt(text, 0).Success? && OneAt(text, 0).value.value == v
  {
    hide OneAt, JsonOk, JText, Stops, Blank, SkipSpace;
    var i: nat, j :| i <= |text| && Blank(text[..i]) && Stands(text, i, j) && Meaning(j) == v;
    StandsDecodes(text, i, j);
  }

  // ---------- The texts of the RFC ----------

  predicate NoNul(s: string) { forall k :: 0 <= k < |s| ==> s[k] != '\0' }

  lemma NoNulBoth(a: string, b: string)
    requires NoNul(a) && NoNul(b)
    ensures NoNul(a + b)
  {
  }

  lemma EscapeHasNoNul(p: Part)
    requires (p.Code? && EscapeOf(p.escape, p.scalar)) || (p.Alone? && HexEscape(p.escape, p.n))
    ensures NoNul(p.escape)
  {
    if |p.escape| == 12 {
      assert p.escape == p.escape[..6] + p.escape[6..];
    }
  }

  lemma {:induction false} PartsHaveNoNul(parts: seq<Part>)
    requires PartsOk(parts) && RfcParts(parts)
    ensures NoNul(PartsText(parts))
    decreases |parts|
  {
    if parts != [] {
      hide EscapeOf, HexEscape, LowFirst, FourHex;
      if parts[0].Code? || parts[0].Alone? {
        EscapeHasNoNul(parts[0]);
      }
      assert RfcPart(parts[0]);
      PartsHaveNoNul(parts[1..]);
    }
  }

  lemma NumeralHasNoNul(n: Numeral)
    requires IsNumeral(n)
    ensures NoNul(NumeralText(n))
  {
    assert NoNul(n.integer);
    assert NoNul(n.fraction) by {
      assert n.fraction != "" ==> n.fraction == [n.fraction[0]] + n.fraction[1..];
    }
    ExponentHasNoNul(n.exponent);
    hide IsNumeral;
    NoNulBoth(Sign(n.minus), n.integer);
    NoNulBoth(Sign(n.minus) + n.integer, n.fraction);
    NoNulBoth(Sign(n.minus) + n.integer + n.fraction, n.exponent);
  }

  lemma ExponentHasNoNul(s: string)
    requires IsExponent(s)
    ensures NoNul(s)
  {
    if s != "" {
      if AllDigits(s[1..]) {
        assert s == [s[0]] + s[1..];
      } else {
        assert s == [s[0], s[1]] + s[2..];
      }
    }
  }

  lemma StringHasNoNul(parts: seq<Part>)
    requires PartsOk(parts) && RfcParts(parts)
    ensures NoNul(StringText(parts))
  {
    PartsHaveNoNul(parts);
    hide PartsOk, RfcParts;
    NoNulBoth(PartsText(parts), "\"");
  }

  lemma {:induction false} TextHasNoNul(j: Json)
    requires JsonOk(j) && Rfc(j)
    ensures NoNul(JText(j))
    decreases j, 0
  {
    hide ItemsText, MembersText, StringText, NumeralText, IsNumeral, PartsOk, RfcParts;
    match j
    case JNumber(n) => NumeralHasNoNul(n);
    case JString(parts) => StringHasNoNul(parts);
    case JItems(items) =>
      ItemsHaveNoNul(items);
      NoNulBoth(items.before, ItemsText(items));
    case JMembers(members) =>
      MembersHaveNoNul(members);
      NoNulBoth(members.before, MembersText(members));
    case _ =>
  }

  lemma {:induction false} ItemsHaveNoNul(items: Items)
    requires ItemsOk(items) && RfcItems(items)
    ensures NoNul(ItemsText(items))
    decreases items, 0
  {
    hide JText, JsonOk, Rfc;
    TextHasNoNul(items.item);
    if items.Item? {
      ItemsHaveNoNul(items.rest);
      NoNulBoth(items.rest.before, ItemsText(items.rest));
      NoNulBoth(items.after, "," + (items.rest.before + ItemsText(items.rest)));
    }
  }

  lemma {:induction false} MembersHaveNoNul(m: Members)
    requires MembersOk(m) && RfcMembers(m)
    ensures NoNul(MembersText(m))
    decreases m, 0
  {
    hide JText, JsonOk, Rfc, StringText, PartsOk, RfcParts;
    StringHasNoNul(m.key);
    TextHasNoNul(m.value);
    NoNulBoth(m.afterColon, JText(m.value));
    NoNulBoth(m.beforeColon, ":" + (m.afterColon + JText(m.value)));
    NoNulBoth(StringText(m.key), m.beforeColon + (":" + (m.afterColon + JText(m.value))));
    if m.Member? {
      MembersHaveNoNul(m.rest);
      NoNulBoth(m.rest.before, MembersText(m.rest));
      NoNulBoth(m.after, "," + (m.rest.before + MembersText(m.rest)));
    }
  }

  lemma BlankStops(j: Json, before: string, after: string)
    requires Blank(after)
    ensures Stops(j, before + JText(j) + after, |before| + |JText(j)|)
  {
    var text, end := before + JText(j) + after, |before| + |JText(j)|;
    assert forall k :: end <= k < |text| ==> text[k] == after[k - end];
  }

  /** Every JSON text of RFC 8259, blanks before and behind it included, decodes to what it means. */
  lemma RfcTextDecodes(before: string, j: Json, after: string)
    requires Blank(before) && JsonOk(j) && Rfc(j) && Blank(after)
    ensures Decode(before + JText(j) + after) == Success(Meaning(j))
  {
    hide JsonOk, Rfc, JText, Stops, Meaning, Decode;
    TextHasNoNul(j);
    NoNulBoth(before, JText(j));
    NoNulBoth(before + JText(j), after);
    BlankStops(j, before, after);
    GrammarDecodes(before, j, after);
  }
}
